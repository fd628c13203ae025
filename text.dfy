/** The string primitives the stream consumer relies on: `startsWith`, `trim`,
    `split("\n")` and the two line-ending replacements, with the properties the
    framer needs from them. Characters are Unicode scalar values. */
module Text {

  predicate StartsWith(s: string, prefix: string) {
    |prefix| <= |s| && s[..|prefix|] == prefix
  }

  /** ECMAScript WhiteSpace and LineTerminator code points, the set `trim` removes. */
  predicate IsJsSpace(c: char) {
    || c == '\t' || c == '\U{000B}' || c == '\U{000C}' || c == ' '
    || c == '\U{00A0}' || c == '\U{FEFF}' || c == '\U{1680}'
    || ('\U{2000}' <= c <= '\U{200A}')
    || c == '\U{202F}' || c == '\U{205F}' || c == '\U{3000}'
    || c == '\n' || c == '\r' || c == '\U{2028}' || c == '\U{2029}'
  }

  function TrimStart(s: string): (r: string)
    decreases |s|
  {
    if s != [] && IsJsSpace(s[0]) then TrimStart(s[1..]) else s
  }

  function TrimEnd(s: string): (r: string)
    decreases |s|
  {
    if s != [] && IsJsSpace(s[|s| - 1]) then TrimEnd(s[..|s| - 1]) else s
  }

  /** `String.prototype.trim` */
  function Trim(s: string): string {
    TrimEnd(TrimStart(s))
  }

  lemma {:induction false} TrimStartSpec(s: string)
    ensures var r := TrimStart(s);
      && |r| <= |s| && r == s[|s| - |r|..]
      && (forall k :: 0 <= k < |s| - |r| ==> IsJsSpace(s[k]))
      && (r != [] ==> !IsJsSpace(r[0]))
    decreases |s|
  {
    if s != [] && IsJsSpace(s[0]) {
      TrimStartSpec(s[1..]);
    }
  }

  lemma {:induction false} TrimEndSpec(s: string)
    ensures var r := TrimEnd(s);
      && |r| <= |s| && r == s[..|r|]
      && (forall k :: |r| <= k < |s| ==> IsJsSpace(s[k]))
      && (r != [] ==> !IsJsSpace(r[|r| - 1]))
    decreases |s|
  {
    if s != [] && IsJsSpace(s[|s| - 1]) {
      TrimEndSpec(s[..|s| - 1]);
    }
  }

  /** `trim` removes exactly the white space at both ends: the result is the
      infix s[i..j] whose outside is all white space and whose ends are not. */
  lemma TrimSpec(s: string)
    ensures exists i, j ::
              && 0 <= i <= j <= |s| && Trim(s) == s[i..j]
              && (forall k :: 0 <= k < i ==> IsJsSpace(s[k]))
              && (forall k :: j <= k < |s| ==> IsJsSpace(s[k]))
    ensures Trim(s) != [] ==> !IsJsSpace(Trim(s)[0]) && !IsJsSpace(Trim(s)[|Trim(s)| - 1])
  {
    var t := TrimStart(s);
    TrimStartSpec(s);
    TrimEndSpec(t);
    var r := TrimEnd(t);
    var i := |s| - |t|;
    var j := i + |r|;
    assert r == s[i..j];
    forall k | j <= k < |s| ensures IsJsSpace(s[k]) {
      assert s[k] == t[k - i];
    }
    if r != [] {
      assert r[0] == t[0];
    }
  }

  // ---------------------------------------------------------------------
  // split("\n") and its inverse
  // ---------------------------------------------------------------------

  /** `s.split("\n")`: the pieces between newlines; never empty. */
  function Split(s: string): (pieces: seq<string>)
    ensures |pieces| >= 1
    decreases |s|
  {
    if s == [] then [""]
    else
      var rest := Split(s[1..]);
      if s[0] == '\n' then [""] + rest
      else [[s[0]] + rest[0]] + rest[1..]
  }

  /** `pieces.join("\n")` */
  function Join(pieces: seq<string>): string
    decreases |pieces|
  {
    if pieces == [] then ""
    else if |pieces| == 1 then pieces[0]
    else pieces[0] + "\n" + Join(pieces[1..])
  }

  predicate NoNewline(s: string) {
    forall k :: 0 <= k < |s| ==> s[k] != '\n'
  }

  predicate AllNoNewline(pieces: seq<string>) {
    forall i :: 0 <= i < |pieces| ==> NoNewline(pieces[i])
  }

  /** Splitting then joining gives the text back, and no piece holds a newline. */
  lemma SplitJoin(s: string)
    ensures Join(Split(s)) == s
    ensures AllNoNewline(Split(s))
  {
    JoinOfSplit(s);
    SplitHasNoNewline(s);
  }

  /** A character that is not a newline joins the first piece. */
  lemma JoinConsOne(c: char, rest: seq<string>)
    requires |rest| == 1
    ensures Join([[c] + rest[0]] + rest[1..]) == [c] + Join(rest)
  {
    var first := [c] + rest[0];
    var p := [first] + rest[1..];
    assert p == [first];
    assert rest == [rest[0]];
  }

  lemma JoinConsMore(c: char, rest: seq<string>)
    requires |rest| > 1
    ensures Join([[c] + rest[0]] + rest[1..]) == [c] + Join(rest)
  {
    var first := [c] + rest[0];
    var p := [first] + rest[1..];
    assert p[0] == first && p[1..] == rest[1..];
    JoinStep(p);
    JoinStep(rest);
    ConsAssoc(c, rest[0], Join(rest[1..]));
  }

  lemma ConsAssoc(c: char, a: string, t: string)
    ensures ([c] + a) + "\n" + t == [c] + (a + "\n" + t)
  {
  }

  lemma JoinStep(pieces: seq<string>)
    requires |pieces| > 1
    ensures Join(pieces) == pieces[0] + "\n" + Join(pieces[1..])
  {
  }

  lemma {:induction false} JoinOfSplit(s: string)
    ensures Join(Split(s)) == s
    decreases |s|
  {
    if s != [] {
      var rest := Split(s[1..]);
      JoinOfSplit(s[1..]);
      if s[0] == '\n' {
        assert Split(s) == [""] + rest;
        assert s == [] + "\n" + s[1..];
      } else {
        assert Split(s) == [[s[0]] + rest[0]] + rest[1..];
        if |rest| == 1 { JoinConsOne(s[0], rest); } else { JoinConsMore(s[0], rest); }
        assert s == [s[0]] + s[1..];
      }
    }
  }

  lemma {:induction false} SplitHasNoNewline(s: string)
    ensures AllNoNewline(Split(s))
    decreases |s|
  {
    if s != [] {
      var rest := Split(s[1..]);
      SplitHasNoNewline(s[1..]);
      var p := Split(s);
      if s[0] != '\n' {
        assert p == [[s[0]] + rest[0]] + rest[1..];
        forall i | 0 <= i < |p| ensures NoNewline(p[i]) {
          if i > 0 { assert p[i] == rest[i]; }
          else { assert NoNewline(rest[0]); }
        }
      } else {
        assert p == [""] + rest;
      }
    }
  }

  /** Joining newline-free pieces then splitting gives the pieces back. */
  lemma {:induction false} JoinSplit(pieces: seq<string>)
    requires |pieces| >= 1 && AllNoNewline(pieces)
    ensures Split(Join(pieces)) == pieces
    decreases |pieces|, |pieces[0]|
  {
    var p0 := pieces[0];
    if p0 == [] {
      if |pieces| == 1 {
        assert Join(pieces) == "";
      } else {
        JoinSplit(pieces[1..]);
        var s := Join(pieces);
        assert s == "\n" + Join(pieces[1..]);
        assert s[1..] == Join(pieces[1..]);
        assert pieces == [""] + pieces[1..];
      }
    } else {
      var shorter := [p0[1..]] + pieces[1..];
      assert shorter[1..] == pieces[1..];
      JoinSplit(shorter);
      var s := Join(pieces);
      if |pieces| == 1 {
        assert s == p0;
        assert Join(shorter) == p0[1..];
      } else {
        assert s == p0 + "\n" + Join(pieces[1..]);
        assert Join(shorter) == p0[1..] + "\n" + Join(pieces[1..]);
      }
      assert s[0] == p0[0] && s[0] != '\n';
      assert s[1..] == Join(shorter);
      assert [s[0]] + p0[1..] == p0;
      assert pieces == [p0] + shorter[1..];
    }
  }

  // ---------------------------------------------------------------------
  // Line-ending normalisation: .replace(/\r\n/g, "\n").replace(/\r/g, "\n")
  // ---------------------------------------------------------------------

  /** The first pass: every CR LF pair, scanned left to right, becomes LF. */
  function ReplaceCrLf(s: string): string
    decreases |s|
  {
    if s == [] then ""
    else if |s| >= 2 && s[0] == '\r' && s[1] == '\n' then "\n" + ReplaceCrLf(s[2..])
    else [s[0]] + ReplaceCrLf(s[1..])
  }

  /** The second pass: every remaining CR becomes LF. */
  function ReplaceCr(s: string): string
    decreases |s|
  {
    if s == [] then ""
    else [if s[0] == '\r' then '\n' else s[0]] + ReplaceCr(s[1..])
  }

  function Normalize(s: string): string {
    ReplaceCr(ReplaceCrLf(s))
  }

  predicate NoCr(s: string) {
    forall k :: 0 <= k < |s| ==> s[k] != '\r'
  }

  lemma {:induction false} ReplaceCrRemovesCr(s: string)
    ensures |ReplaceCr(s)| == |s|
    ensures NoCr(ReplaceCr(s))
    ensures NoCr(s) ==> ReplaceCr(s) == s
    decreases |s|
  {
    if s != [] {
      ReplaceCrRemovesCr(s[1..]);
      assert s == [s[0]] + s[1..];
    }
  }

  lemma {:induction false} ReplaceCrLfKeepsCrFree(s: string)
    requires NoCr(s)
    ensures ReplaceCrLf(s) == s
    decreases |s|
  {
    if s != [] {
      ReplaceCrLfKeepsCrFree(s[1..]);
      assert s == [s[0]] + s[1..];
    }
  }

  /** Normalised text holds no CR, and text without CR is left as it is. */
  lemma NormalizeSpec(s: string)
    ensures NoCr(Normalize(s))
    ensures NoCr(s) ==> Normalize(s) == s
    ensures Normalize(Normalize(s)) == Normalize(s)
  {
    ReplaceCrRemovesCr(ReplaceCrLf(s));
    if NoCr(s) {
      ReplaceCrLfKeepsCrFree(s);
      ReplaceCrRemovesCr(s);
    }
    var n := Normalize(s);
    ReplaceCrLfKeepsCrFree(n);
    ReplaceCrRemovesCr(n);
  }

  /** Each CR LF pair, and each CR not followed by LF, becomes exactly one LF;
      together with `NormalizeSpec`'s identity on CR-free text this fixes
      `Normalize` on every input. */
  lemma NormalizeLineBreaks(a: string, b: string)
    ensures NoCr(a) ==> Normalize(a + "\r\n" + b) == a + "\n" + Normalize(b)
    ensures NoCr(a) && (b == [] || b[0] != '\n') ==> Normalize(a + "\r" + b) == a + "\n" + Normalize(b)
  {
    if NoCr(a) {
      var rest := ReplaceCrLf(b);
      var pair := "\r\n" + b;
      assert pair[2..] == b;
      assert ReplaceCrLf(pair) == "\n" + rest;
      assert a + "\r\n" + b == a + pair;
      ReplaceCrLfAfter(a, pair);
      CrFreePrefixKept(a, "\n", rest);
      if b == [] || b[0] != '\n' {
        var lone := "\r" + b;
        assert lone[1..] == b;
        assert ReplaceCrLf(lone) == "\r" + rest;
        assert a + "\r" + b == a + lone;
        ReplaceCrLfAfter(a, lone);
        CrFreePrefixKept(a, "\r", rest);
      }
    }
  }

  /** `ReplaceCr` on a CR-free text, one line-break character, and the rest. */
  lemma CrFreePrefixKept(a: string, c: string, rest: string)
    requires NoCr(a) && (c == "\n" || c == "\r")
    ensures ReplaceCr(a + (c + rest)) == a + "\n" + ReplaceCr(rest)
  {
    ReplaceCrAppend(a, c + rest);
    ReplaceCrAppend(c, rest);
    ReplaceCrRemovesCr(a);
    assert c[1..] == [];
    assert ReplaceCr(c) == "\n";
  }

  lemma {:induction false} ReplaceCrAppend(x: string, y: string)
    ensures ReplaceCr(x + y) == ReplaceCr(x) + ReplaceCr(y)
    decreases |x|
  {
    if x == [] {
      assert x + y == y;
    } else {
      assert (x + y)[1..] == x[1..] + y;
      ReplaceCrAppend(x[1..], y);
    }
  }

  lemma {:induction false} ReplaceCrLfAfter(a: string, t: string)
    requires NoCr(a)
    ensures ReplaceCrLf(a + t) == a + ReplaceCrLf(t)
    decreases |a|
  {
    if a == [] {
      assert a + t == t;
    } else {
      var x := a + t;
      var tail := a[1..];
      assert x[0] == a[0] && a[0] != '\r';
      assert x[1..] == tail + t;
      assert ReplaceCrLf(x) == [a[0]] + ReplaceCrLf(tail + t);
      assert NoCr(tail) by {
        forall k | 0 <= k < |tail| ensures tail[k] != '\r' { assert tail[k] == a[k + 1]; }
      }
      ReplaceCrLfAfter(tail, t);
      assert [a[0]] + (tail + ReplaceCrLf(t)) == ([a[0]] + tail) + ReplaceCrLf(t);
      assert [a[0]] + tail == a;
    }
  }

  /** Normalisation is applied per read: a CR that ends one read and the LF that
      starts the next become two newlines, where the pair read at once gives one. */
  lemma CrLfAcrossReads()
    ensures Normalize("\r") + Normalize("\n") == "\n\n"
    ensures Normalize("\r\n") == "\n"
  {
    assert ReplaceCrLf("\r") == "\r";
    assert ReplaceCrLf("\n") == "\n";
    assert ReplaceCrLf("\r\n") == "\n" + ReplaceCrLf("");
    assert ReplaceCr("\r") == "\n" + ReplaceCr("");
    assert ReplaceCr("\n") == "\n" + ReplaceCr("");
  }
}
