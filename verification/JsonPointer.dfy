/** The JSON Pointer escaping of pkg/webhook/mutate.go, against sections 3 and 4 of RFC 6901. */
module JsonPointer {

  /** strings.ReplaceAll: occurrences from the left, without overlap. */
  function ReplaceAll(s: string, from: string, to: string): string
    requires from != ""
  {
    if |s| < |from| then s
    else if s[..|from|] == from then to + ReplaceAll(s[|from|..], from, to)
    else [s[0]] + ReplaceAll(s[1..], from, to)
  }

  /** jsonPointerEscape */
  function Escape(s: string): string {
    ReplaceAll(ReplaceAll(s, "~", "~0"), "/", "~1")
  }

  /** jsonPointerUnescape */
  function Unescape(s: string): string {
    ReplaceAll(ReplaceAll(s, "~1", "/"), "~0", "~")
  }

  /** A reference token of section 3: '~' only as part of "~0" or "~1", and no '/'. */
  predicate WellFormed(t: string) {
    || t == ""
    || (t[0] == '~' && |t| >= 2 && (t[1] == '0' || t[1] == '1') && WellFormed(t[2..]))
    || (t[0] != '~' && t[0] != '/' && WellFormed(t[1..]))
  }

  function EscapeChar(c: char): string {
    if c == '~' then "~0" else if c == '/' then "~1" else [c]
  }

  function EscapeEach(s: string): string {
    if s == "" then "" else EscapeChar(s[0]) + EscapeEach(s[1..])
  }

  /** The token's meaning by section 4, in one pass: "~1" is '/', "~0" is '~'. */
  function Decode(t: string): string {
    if t == "" then ""
    else if t[0] == '~' && |t| >= 2 && t[1] == '1' then "/" + Decode(t[2..])
    else if t[0] == '~' && |t| >= 2 && t[1] == '0' then "~" + Decode(t[2..])
    else [t[0]] + Decode(t[1..])
  }

  lemma {:induction false} ReplaceCharSplits(a: string, b: string, c: char, to: string)
    ensures ReplaceAll(a + b, [c], to) == ReplaceAll(a, [c], to) + ReplaceAll(b, [c], to)
  {
    if a == "" {
      assert a + b == b;
    } else {
      assert (a + b)[1..] == a[1..] + b;
      ReplaceCharSplits(a[1..], b, c, to);
      assert (a + b)[..1] == [a[0]] == a[..1];
    }
  }

  /** The two passes of Escape are one character-by-character translation. */
  lemma {:induction false} EscapeIsPerCharacter(s: string)
    ensures Escape(s) == EscapeEach(s)
  {
    if s != "" {
      EscapeIsPerCharacter(s[1..]);
      var head := ReplaceAll([s[0]], "~", "~0");
      assert s == [s[0]] + s[1..];
      ReplaceCharSplits([s[0]], s[1..], '~', "~0");
      ReplaceCharSplits(head, ReplaceAll(s[1..], "~", "~0"), '/', "~1");
      EscapeOneChar(s[0]);
    }
  }

  lemma EscapeOneChar(c: char)
    ensures ReplaceAll(ReplaceAll([c], "~", "~0"), "/", "~1") == EscapeChar(c)
  {
    assert [c][..1] == [c] && [c][1..] == "";
    if c == '~' {
      var t := "~0";
      assert ReplaceAll([c], "~", "~0") == t;
      assert t[..1] == "~" && t[1..] == "0";
      assert "0"[..1] == "0" && "0"[1..] == "";
      assert ReplaceAll("0", "/", "~1") == "0";
    }
  }

  lemma {:induction false} EscapeEachWellFormed(s: string)
    ensures WellFormed(EscapeEach(s))
    ensures Decode(EscapeEach(s)) == s
  {
    if s != "" {
      EscapeEachWellFormed(s[1..]);
      var e := EscapeChar(s[0]);
      assert EscapeEach(s)[|e|..] == EscapeEach(s[1..]);
    }
  }

  /** What Unescape's first pass leaves in front decides whether its second pass can match there. */
  lemma FirstPassHead(t: string)
    requires t != "" && t[0] != '0'
    ensures var u := ReplaceAll(t, "~1", "/"); u != "" && u[0] != '0'
  {
  }

  /** The two passes of Unescape, in their order, are the one-pass meaning of RFC 6901 on every string. */
  lemma {:induction false} UnescapeIsDecode(t: string)
    ensures Unescape(t) == Decode(t)
  {
    if |t| >= 2 && t[0] == '~' && t[1] == '1' {
      UnescapeIsDecode(t[2..]);
      var u := ReplaceAll(t[2..], "~1", "/");
      assert t[..2] == "~1";
      assert ReplaceAll(t, "~1", "/") == "/" + u;
      SecondPassSkips('/', u);
    } else if |t| >= 2 && t[0] == '~' && t[1] == '0' {
      UnescapeIsDecode(t[2..]);
      var u := ReplaceAll(t[2..], "~1", "/");
      FirstPassKeeps(t);
      assert t[1..] != "" && t[1..][0] == '0';
      FirstPassKeeps(t[1..]);
      assert t[1..][1..] == t[2..];
      assert ReplaceAll(t, "~1", "/") == "~0" + u;
      SecondPassMatches(u);
    } else if t != "" {
      UnescapeIsDecode(t[1..]);
      FirstPassKeeps(t);
      var u := ReplaceAll(t[1..], "~1", "/");
      if t[1..] != "" && t[0] == '~' {
        FirstPassHead(t[1..]);
      }
      SecondPassSkips(t[0], u);
    }
  }

  lemma FirstPassKeeps(t: string)
    requires t != "" && !(|t| >= 2 && t[0] == '~' && t[1] == '1')
    ensures ReplaceAll(t, "~1", "/") == [t[0]] + ReplaceAll(t[1..], "~1", "/")
  {
    if |t| >= 2 {
      assert t[..2][0] == t[0] && t[..2][1] == t[1];
      assert t[..2] != "~1";
    }
  }

  lemma SecondPassSkips(c: char, u: string)
    requires c == '~' ==> u == "" || u[0] != '0'
    ensures ReplaceAll([c] + u, "~0", "~") == [c] + ReplaceAll(u, "~0", "~")
  {
    var s := [c] + u;
    assert s[1..] == u;
    if |s| >= 2 {
      assert s[..2] == [c, u[0]];
      assert s[..2][0] == c && s[..2][1] == u[0];
    }
  }

  lemma SecondPassMatches(u: string)
    ensures ReplaceAll("~0" + u, "~0", "~") == "~" + ReplaceAll(u, "~0", "~")
  {
    var s := "~0" + u;
    assert s[..2] == "~0" && s[2..] == u;
  }

  /** A well-formed token has no '/', so it stays one token of a pointer. */
  lemma {:induction false} WellFormedHasNoSlash(t: string)
    requires WellFormed(t)
    ensures '/' !in t
  {
    if t != "" {
      var k := if t[0] == '~' then 2 else 1;
      WellFormedHasNoSlash(t[k..]);
      assert t == t[..k] + t[k..];
    }
  }

  lemma {:induction false} EncodeDecode(t: string)
    requires WellFormed(t)
    ensures EscapeEach(Decode(t)) == t
  {
    if t != "" {
      var k := if t[0] == '~' then 2 else 1;
      EncodeDecode(t[k..]);
      var head := Decode(t)[0];
      assert Decode(t) == [head] + Decode(t[k..]);
      assert Decode(t)[1..] == Decode(t[k..]);
      assert EscapeChar(head) == t[..k];
      assert t == t[..k] + t[k..];
    }
  }

  /**
   * Escaping yields a well-formed token and loses nothing; unescaping and escaping again restores
   * a token exactly when it is well-formed.
   */
  lemma EscapeRoundTrips(s: string)
    ensures WellFormed(Escape(s))
    ensures Unescape(Escape(s)) == s
    ensures Escape(Unescape(s)) == s <==> WellFormed(s)
  {
    EscapeIsPerCharacter(s);
    EscapeEachWellFormed(s);
    UnescapeIsDecode(Escape(s));
    UnescapeIsDecode(s);
    EscapeIsPerCharacter(Unescape(s));
    EscapeEachWellFormed(Unescape(s));
    if WellFormed(s) {
      EncodeDecode(s);
    }
  }
}
