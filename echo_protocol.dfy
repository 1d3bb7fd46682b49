/** The echo protocol's single grammar rule, `^ECHO (.*)$`, applied to a whole
    received message with `Matcher.matches()`.

    `Matches` is a reference definition of what the regular expression
    accepts under Java's rules; `Parse` is the explicit prefix check and
    substring extraction, proved to accept exactly the same messages. */
module EchoProtocol {
  import opened Wrappers

  /** The literal part of the rule and of every successful reply. */
  const EchoPrefix: string := "ECHO "

  /** The reply to any message the rule does not accept. */
  const ErrorReply: string := "ERROR bad message"

  /** Java's line terminators when neither UNIX_LINES nor DOTALL is set:
      `.` matches none of them, and `$` may stand just before a final one. */
  predicate IsLineTerminator(c: char)
  {
    c == '\n' || c == '\r' || c == '\U{0085}' || c == '\U{2028}' || c == '\U{2029}'
  }

  predicate NoLineTerminator(s: string)
  {
    forall i :: 0 <= i < |s| ==> !IsLineTerminator(s[i])
  }

  /** The elements of the pattern: `^`, `$`, a literal character and `.*`. */
  datatype Term = Begin | End | Literal(c: char) | AnyRun

  /** What `$` accepts as the rest of the input (without MULTILINE): the end
      of input, or a single final line terminator (`\r\n` counting as one).
      Java's `$` also refuses the position between the `\r` and `\n` of a
      final `\r\n`; that is not modelled, since here `$` ends the pattern
      and the whole-input match leaves nothing after it. */
  predicate AtInputEnd(rest: string)
  {
    rest == [] || (|rest| == 1 && IsLineTerminator(rest[0])) || rest == "\r\n"
  }

  /** The pattern matches all of `rest`, `consumed` characters having been
      matched before it (`^` holds only at the start of the input). Matching
      the whole input, as `matches()` demands, is `Matches(p, s, 0)`. */
  predicate Matches(pattern: seq<Term>, rest: string, consumed: nat)
    decreases |pattern|, |rest|
  {
    if pattern == [] then rest == []
    else match pattern[0]
      case Begin => consumed == 0 && Matches(pattern[1..], rest, consumed)
      case End => AtInputEnd(rest) && Matches(pattern[1..], rest, consumed)
      case Literal(c) =>
        |rest| > 0 && rest[0] == c && Matches(pattern[1..], rest[1..], consumed + 1)
      case AnyRun =>
        Matches(pattern[1..], rest, consumed)
        || (|rest| > 0 && !IsLineTerminator(rest[0]) && Matches(pattern, rest[1..], consumed + 1))
  }

  /** The literal characters of `w`, in order. */
  function Literals(w: string): (p: seq<Term>)
    ensures |p| == |w|
  {
    if w == [] then [] else [Literal(w[0])] + Literals(w[1..])
  }

  /** `^ECHO (.*)$`; the capturing group is the `.*`. */
  function EchoPattern(): seq<Term>
  {
    [Begin] + Literals(EchoPrefix) + [AnyRun, End]
  }

  /** A run of literals matches exactly the inputs that start with them. */
  lemma {:induction false} LiteralsThen(w: string, tail: seq<Term>, s: string, k: nat)
    ensures Matches(Literals(w) + tail, s, k)
        <==> |s| >= |w| && s[..|w|] == w && Matches(tail, s[|w|..], k + |w|)
    decreases |w|
  {
    if w == [] {
      assert Literals(w) + tail == tail;
      assert s[..0] == w && s[0..] == s;
    } else {
      var p := Literals(w) + tail;
      assert p[0] == Literal(w[0]);
      assert p[1..] == Literals(w[1..]) + tail;
      if |s| > 0 {
        LiteralsThen(w[1..], tail, s[1..], k + 1);
        if |s| >= |w| {
          assert s[1..][|w| - 1..] == s[|w|..];
          assert s[..|w|] == [s[0]] + s[1..][..|w| - 1];
          assert w == [w[0]] + w[1..];
        }
      }
    }
  }

  /** `.*$` matches the rest of the input exactly when that rest holds no
      line terminator: `.` stops at one, and `$` before a final terminator
      leaves it unconsumed, which a whole-input match does not allow. */
  lemma {:induction false} AnyRunToEnd(s: string, k: nat)
    ensures Matches([AnyRun, End], s, k) <==> NoLineTerminator(s)
    decreases |s|
  {
    var p := [AnyRun, End];
    assert p[1..] == [End];
    assert [End][1..] == [];
    assert Matches([End], s, k) <==> s == [];
    if s != [] {
      assert Matches(p, s, k)
        <==> !IsLineTerminator(s[0]) && Matches(p, s[1..], k + 1);
      AnyRunToEnd(s[1..], k + 1);
      assert NoLineTerminator(s) <==> !IsLineTerminator(s[0]) && NoLineTerminator(s[1..]) by {
        if !IsLineTerminator(s[0]) && NoLineTerminator(s[1..]) {
          forall i | 0 <= i < |s| ensures !IsLineTerminator(s[i]) {
            if i > 0 { assert s[i] == s[1..][i - 1]; }
          }
        }
      }
    }
  }

  /** `^w(.*)$` matches exactly the inputs made of `w` and then a rest free
      of line terminators. */
  lemma {:induction false} PrefixPatternShape(w: string, m: string)
    ensures Matches([Begin] + Literals(w) + [AnyRun, End], m, 0)
        <==> |m| >= |w| && m[..|w|] == w && NoLineTerminator(m[|w|..])
  {
    var body := Literals(w) + [AnyRun, End];
    var p := [Begin] + Literals(w) + [AnyRun, End];
    assert p[0] == Begin;
    assert p[1..] == body;
    assert Matches(p, m, 0) == Matches(body, m, 0);
    LiteralsThen(w, [AnyRun, End], m, 0);
    if |m| >= |w| {
      AnyRunToEnd(m[|w|..], |w|);
    }
  }

  /** The reference matcher accepts exactly `"ECHO "` followed by a payload
      free of line terminators. */
  lemma EchoPatternShape(m: string)
    ensures Matches(EchoPattern(), m, 0)
        <==> |m| >= |EchoPrefix| && m[..|EchoPrefix|] == EchoPrefix
             && NoLineTerminator(m[|EchoPrefix|..])
  {
    PrefixPatternShape(EchoPrefix, m);
  }

  /** Matching a received message: `Some(payload)`, the text of group 1,
      when `^ECHO (.*)$` matches the whole message, `None` otherwise. */
  function Parse(message: string): (payload: Option<string>)
    ensures payload.Some? <==> Matches(EchoPattern(), message, 0)
    ensures payload.Some? ==> message == EchoPrefix + payload.value
    ensures payload.Some? ==> NoLineTerminator(payload.value)
  {
    EchoPatternShape(message);
    if |message| >= |EchoPrefix| && message[..|EchoPrefix|] == EchoPrefix
       && NoLineTerminator(message[|EchoPrefix|..])
    then Some(message[|EchoPrefix|..])
    else None
  }

  /** Every `"ECHO " + p` is accepted with payload `p` exactly when `p` holds
      no line terminator, so the reply `"ECHO " + p` is the message itself. */
  lemma ParseEcho(p: string)
    ensures Parse(EchoPrefix + p) == (if NoLineTerminator(p) then Some(p) else None)
  {
    var m := EchoPrefix + p;
    assert m[..|EchoPrefix|] == EchoPrefix;
    assert m[|EchoPrefix|..] == p;
  }

  /** Messages the rule rejects: a different command, the empty message, a
      longer word, the bare keyword, and a payload spanning two lines; and the
      empty payload, which it accepts. */
  lemma ParseExamples()
    ensures Parse("PING") == None
    ensures Parse("") == None
    ensures Parse("ECHOX y") == None
    ensures Parse("ECHO") == None
    ensures Parse("STOP") == None
    ensures Parse("ECHO a\nb") == None
    ensures Parse("ECHO x\n") == None
    ensures Parse("ECHO ") == Some("")
    ensures Parse("ECHO hi") == Some("hi")
  {
    assert "ECHOX y"[..5] != EchoPrefix by { assert "ECHOX y"[4] == 'X'; }
    ParseEcho("a\nb");
    assert !NoLineTerminator("a\nb") by { assert IsLineTerminator("a\nb"[1]); }
    assert EchoPrefix + "a\nb" == "ECHO a\nb";
    ParseEcho("x\n");
    assert !NoLineTerminator("x\n") by { assert IsLineTerminator("x\n"[1]); }
    assert EchoPrefix + "x\n" == "ECHO x\n";
    ParseEcho("");
    assert EchoPrefix + "" == "ECHO ";
    ParseEcho("hi");
    assert EchoPrefix + "hi" == "ECHO hi";
  }
}
