/** Go's strings.TrimSpace, Trim, Join and Split with a one-character separator, and when Split undoes Join. */
module Text {

  /** unicode.IsSpace. */
  predicate IsSpace(c: char) {
    || '\t' <= c <= '\r' || c == ' ' || c == '\U{85}' || c == '\U{A0}' || c == '\U{1680}'
    || '\U{2000}' <= c <= '\U{200A}' || c == '\U{2028}' || c == '\U{2029}' || c == '\U{202F}' || c == '\U{205F}'
    || c == '\U{3000}'
  }

  function TrimLeft(s: string, cut: char -> bool): (r: string)
    ensures r != "" ==> !cut(r[0])
    ensures s != "" && !cut(s[0]) ==> r == s
    ensures |r| <= |s|
    ensures r != "" ==> r[|r| - 1] == s[|s| - 1]
  {
    if s != "" && cut(s[0]) then TrimLeft(s[1..], cut) else s
  }

  function TrimRight(s: string, cut: char -> bool): (r: string)
    ensures r != "" ==> !cut(r[|r| - 1])
    ensures s != "" && !cut(s[|s| - 1]) ==> r == s
    ensures |r| <= |s|
    ensures r != "" ==> r[0] == s[0]
  {
    if s != "" && cut(s[|s| - 1]) then TrimRight(s[..|s| - 1], cut) else s
  }

  /** What is left has no cut character at either end, and a string like that is left alone. */
  function Trim(s: string, cut: char -> bool): (r: string)
    ensures r != "" ==> !cut(r[0]) && !cut(r[|r| - 1])
    ensures s != "" && !cut(s[0]) && !cut(s[|s| - 1]) ==> r == s
  {
    TrimRight(TrimLeft(s, cut), cut)
  }

  predicate All(s: string, cut: char -> bool) {
    forall c :: c in s ==> cut(c)
  }

  lemma {:induction false} TrimLeftDrops(s: string, cut: char -> bool)
    ensures var r := TrimLeft(s, cut); |r| <= |s| && r == s[|s| - |r|..] && All(s[..|s| - |r|], cut)
  {
    if s != "" && cut(s[0]) {
      var r := TrimLeft(s[1..], cut);
      TrimLeftDrops(s[1..], cut);
      var k := |s| - |r|;
      assert s[1..][k - 1..] == s[k..] && s[..k] == [s[0]] + s[1..][..k - 1];
    }
  }

  lemma {:induction false} TrimRightDrops(s: string, cut: char -> bool)
    ensures var r := TrimRight(s, cut); |r| <= |s| && r == s[..|r|] && All(s[|r|..], cut)
  {
    if s != "" && cut(s[|s| - 1]) {
      var t, r := s[..|s| - 1], TrimRight(s[..|s| - 1], cut);
      TrimRightDrops(t, cut);
      assert t[..|r|] == s[..|r|] && s[|r|..] == t[|r|..] + [s[|s| - 1]];
    }
  }

  /** r is what stands between i and j, and all around it is cut. */
  predicate Middle(s: string, i: nat, j: nat, r: string, cut: char -> bool) {
    i <= j <= |s| && r == s[i..j] && All(s[..i], cut) && All(s[j..], cut)
  }

  lemma TrimDrops(s: string, cut: char -> bool) returns (i: nat, j: nat)
    ensures Middle(s, i, j, Trim(s, cut), cut)
  {
    var u, r := TrimLeft(s, cut), Trim(s, cut);
    TrimLeftDrops(s, cut);
    TrimRightDrops(u, cut);
    i := |s| - |u|;
    j := i + |r|;
    assert s[i..j] == u[..|r|] && s[j..] == u[|r|..];
  }

  lemma MiddleEmpty(s: string, i: nat, cut: char -> bool)
    requires Middle(s, i, i, "", cut)
    ensures All(s, cut)
  {
    assert s == s[..i] + s[i..];
  }

  /** Trimming drops cut characters at both ends and keeps everything between the first and the last other one. */
  lemma TrimKeepsMiddle(s: string, cut: char -> bool)
    ensures exists i: nat, j: nat :: Middle(s, i, j, Trim(s, cut), cut)
    ensures Trim(s, cut) == "" <==> All(s, cut)
  {
    var i, j := TrimDrops(s, cut);
    var r := Trim(s, cut);
    if r == "" { MiddleEmpty(s, i, cut); } else { assert r[0] == s[i] && s[i] in s; }
  }

  function TrimSpace(s: string): (r: string) {
    Trim(s, IsSpace)
  }

  function TrimChar(s: string, sep: char): (r: string) {
    Trim(s, c => c == sep)
  }

  lemma TrimSpaceTwice(s: string)
    ensures TrimSpace(TrimSpace(s)) == TrimSpace(s)
  {
  }

  /** Trimming adds no characters. */
  lemma TrimSpaceChars(s: string, c: char)
    ensures c in TrimSpace(s) ==> c in s
  {
    TrimLeftChars(s, IsSpace, c);
    TrimRightChars(TrimLeft(s, IsSpace), IsSpace, c);
  }

  lemma {:induction false} TrimLeftChars(s: string, cut: char -> bool, c: char)
    ensures c in TrimLeft(s, cut) ==> c in s
  {
    if s != "" && cut(s[0]) { TrimLeftChars(s[1..], cut, c); }
  }

  lemma {:induction false} TrimRightChars(s: string, cut: char -> bool, c: char)
    ensures c in TrimRight(s, cut) ==> c in s
  {
    if s != "" && cut(s[|s| - 1]) { TrimRightChars(s[..|s| - 1], cut, c); }
  }

  function Join(names: seq<string>, sep: char): (s: string) {
    if names == [] then ""
    else if |names| == 1 then names[0]
    else names[0] + [sep] + Join(names[1..], sep)
  }

  /** strings.Split. */
  function Split(s: string, sep: char): (r: seq<string>)
    ensures |r| >= 1
  {
    if s == "" then [""]
    else
      var rest := Split(s[1..], sep);
      if s[0] == sep then [""] + rest else [[s[0]] + rest[0]] + rest[1..]
  }

  predicate FreeOf(names: seq<string>, sep: char) {
    forall name :: name in names ==> sep !in name
  }

  /** The pieces are free of the separator, and an end piece is empty only next to a separator. */
  lemma {:induction false} SplitPieces(s: string, sep: char)
    ensures var r := Split(s, sep);
            && FreeOf(r, sep)
            && (s != "" && s[0] != sep ==> r[0] != "")
            && (s != "" && s[|s| - 1] != sep ==> r[|r| - 1] != "")
  {
    if s != "" {
      var r, rest := Split(s, sep), Split(s[1..], sep);
      SplitPieces(s[1..], sep);
      if s[0] == sep {
        assert r == [""] + rest;
      } else {
        assert r == [[s[0]] + rest[0]] + rest[1..] && rest[0] in rest;
        assert forall name :: name in rest[1..] ==> name in rest;
      }
    }
  }

  lemma {:induction false} SplitPiece(piece: string, sep: char, rest: string)
    requires sep !in piece
    ensures Split(piece, sep) == [piece]
    ensures Split(piece + [sep] + rest, sep) == [piece] + Split(rest, sep)
  {
    var whole := piece + [sep] + rest;
    if piece == "" {
      assert whole[1..] == rest;
    } else {
      SplitPiece(piece[1..], sep, rest);
      assert whole[1..] == piece[1..] + [sep] + rest;
      assert piece == [piece[0]] + piece[1..];
    }
  }

  lemma {:induction false} SplitJoin(names: seq<string>, sep: char)
    requires names != [] && FreeOf(names, sep)
    ensures Split(Join(names, sep), sep) == names
  {
    if |names| == 1 {
      SplitPiece(names[0], sep, "");
      assert names == [names[0]];
    } else {
      var rest := names[1..];
      assert forall name :: name in rest ==> name in names;
      assert names[0] in names;
      SplitJoin(rest, sep);
      SplitPiece(names[0], sep, Join(rest, sep));
      assert names == [names[0]] + rest;
    }
  }

  /** Joining the pieces gives the text back: nothing is lost, added or moved. */
  lemma {:induction false} JoinSplit(s: string, sep: char)
    ensures Join(Split(s, sep), sep) == s
  {
    if s != "" {
      var r, rest := Split(s, sep), Split(s[1..], sep);
      JoinSplit(s[1..], sep);
      assert s == [s[0]] + s[1..];
      if s[0] == sep {
        assert r == [""] + rest && r[1..] == rest;
      } else {
        assert r == [[s[0]] + rest[0]] + rest[1..] && r[1..] == rest[1..];
        if |rest| > 1 { assert Join(rest, sep) == rest[0] + [sep] + Join(rest[1..], sep); }
      }
    }
  }

  lemma {:induction false} JoinEnds(names: seq<string>, sep: char)
    requires names != [] && names[0] != "" && names[|names| - 1] != ""
    ensures var s := Join(names, sep);
            var last := names[|names| - 1];
            s != "" && s[0] == names[0][0] && s[|s| - 1] == last[|last| - 1]
  {
    if |names| > 1 {
      var rest := names[1..];
      if rest[0] != "" {
        JoinEnds(rest, sep);
      } else {
        JoinLast(rest, sep);
      }
    }
  }

  lemma {:induction false} JoinLast(names: seq<string>, sep: char)
    requires names != [] && names[|names| - 1] != ""
    ensures var s := Join(names, sep);
            var last := names[|names| - 1];
            s != "" && s[|s| - 1] == last[|last| - 1]
  {
    if |names| > 1 { JoinLast(names[1..], sep); }
  }

  /** What a list looks like after it was joined, stored, trimmed and split again. */
  function Reparse(names: seq<string>, sep: char): (r: seq<string>) {
    Split(TrimChar(Join(names, sep), sep), sep)
  }

  /** The lists that survive: no piece contains the separator and neither end is empty. */
  predicate Joinable(names: seq<string>, sep: char) {
    && names != []
    && FreeOf(names, sep)
    && (names == [""] || (names[0] != "" && names[|names| - 1] != ""))
  }

  /** Storing a list as joined text gives the list back exactly when it is Joinable. */
  lemma JoinSplitRoundTrip(names: seq<string>, sep: char)
    ensures Reparse(names, sep) == names <==> Joinable(names, sep)
  {
    if Joinable(names, sep) {
      SplitJoin(names, sep);
      if names != [""] {
        JoinEnds(names, sep);
        assert names[0] in names && names[|names| - 1] in names;
        assert names[0][0] != sep && names[|names| - 1][|names[|names| - 1]| - 1] != sep;
      }
    }
    ghost var kept := TrimChar(Join(names, sep), sep);
    SplitPieces(kept, sep);
    assert kept == "" ==> Reparse(names, sep) == [""];
  }
}
