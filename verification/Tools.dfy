/** Cutting a string at a separator and putting strings together around one. */
module Tools {

  /** The place of the first c in s at or after a place, or the length of s. */
  function IndexFrom(s: string, c: char, from: nat): (i: nat)
    requires from <= |s|
    ensures from <= i <= |s| && (i < |s| ==> s[i] == c)
    ensures forall k :: from <= k < i ==> s[k] != c
    decreases |s| - from
  {
    if from == |s| || s[from] == c then from else IndexFrom(s, c, from + 1)
  }

  function IndexOf(s: string, c: char): (i: nat)
    ensures i <= |s| && c !in s[..i] && (i < |s| ==> s[i] == c)
  {
    IndexFrom(s, c, 0)
  }

  /** What lies between the separators. A string that ends with a separator has no empty piece
      after it. */
  function Pieces(s: string, sep: char): seq<string>
    decreases |s|
  {
    if s == "" then []
    else
      var i := IndexOf(s, sep);
      if i == |s| then [s] else [s[..i]] + Pieces(s[i + 1..], sep)
  }

  function Joined(parts: seq<string>, sep: char): string {
    if parts == [] then "" else if |parts| == 1 then parts[0] else parts[0] + [sep] + Joined(parts[1..], sep)
  }

  ghost predicate Free(parts: seq<string>, sep: char) {
    forall i :: 0 <= i < |parts| ==> sep !in parts[i]
  }

  lemma IndexIs(s: string, c: char, i: nat)
    requires i <= |s| && c !in s[..i] && (i < |s| ==> s[i] == c)
    ensures IndexOf(s, c) == i
  {
    NotBefore(s, c, i);
    NotBefore(s, c, IndexOf(s, c));
  }

  lemma NotBefore(s: string, c: char, i: nat)
    requires i <= |s| && c !in s[..i]
    ensures forall k :: 0 <= k < i ==> s[k] != c
  {
    forall k | 0 <= k < i ensures s[k] != c {
      assert s[k] == s[..i][k];
    }
  }

  /** A string that starts with a piece and a separator. */
  lemma FirstPiece(a: string, rest: string, sep: char)
    requires sep !in a
    ensures Pieces(a + [sep] + rest, sep) == [a] + Pieces(rest, sep)
  {
    var s := a + [sep] + rest;
    assert s[..|a|] == a && s[|a|] == sep;
    IndexIs(s, sep, |a|);
    assert s[|a| + 1..] == rest;
  }

  lemma OnlyPiece(a: string, sep: char)
    requires sep !in a
    ensures Pieces(a, sep) == if a == "" then [] else [a]
  {
    IndexIs(a, sep, |a|);
  }

  /** Parts that hold no separator and do not end with an empty one are cut again as they were
      put together. */
  lemma {:induction false} PiecesOfJoined(parts: seq<string>, sep: char)
    requires Free(parts, sep) && (parts != [] ==> parts[|parts| - 1] != "")
    ensures Pieces(Joined(parts, sep), sep) == parts
  {
    if |parts| == 1 {
      OnlyPiece(parts[0], sep);
    } else if |parts| > 1 {
      FirstPiece(parts[0], Joined(parts[1..], sep), sep);
      PiecesOfJoined(parts[1..], sep);
      assert [parts[0]] + parts[1..] == parts;
    }
  }

  lemma {:induction false} PiecesAreFree(s: string, sep: char)
    ensures Free(Pieces(s, sep), sep) && (s != "" ==> Pieces(s, sep) != [])
    decreases |s|
  {
    if s != "" {
      var i := IndexOf(s, sep);
      if i < |s| {
        PiecesAreFree(s[i + 1..], sep);
      } else {
        assert s[..i] == s;
      }
    }
  }

  lemma JoinedFirst(x: string, parts: seq<string>, sep: char)
    ensures Joined([x] + parts, sep) == if parts == [] then x else x + [sep] + Joined(parts, sep)
  {
    assert ([x] + parts)[1..] == parts;
  }

  lemma PutTogether(s: string, i: nat, sep: char, joined: string)
    requires i < |s| && s[i] == sep
    requires joined + (if s[i + 1..] != "" && s[|s| - 1] == sep then [sep] else "") == s[i + 1..]
    ensures (if s[i + 1..] == "" then s[..i] else s[..i] + [sep] + joined) +
      (if s[|s| - 1] == sep then [sep] else "") == s
  {
    assert s == s[..i] + [sep] + s[i + 1..];
  }

  /** Joined again the pieces give the string, except for a separator at its end. */
  lemma {:induction false} JoinedPieces(s: string, sep: char)
    ensures Joined(Pieces(s, sep), sep) + (if s != "" && s[|s| - 1] == sep then [sep] else "") == s
    decreases |s|
  {
    if s != "" {
      var i := IndexOf(s, sep);
      if i < |s| {
        var rest := s[i + 1..];
        JoinedPieces(rest, sep);
        PiecesAreFree(rest, sep);
        JoinedFirst(s[..i], Pieces(rest, sep), sep);
        PutTogether(s, i, sep, Joined(Pieces(rest, sep), sep));
      } else {
        NotBefore(s, sep, i);
      }
    }
  }

  // ------------------------------------------------------------------ all the pieces

  /** What lies between the separators, be it empty, to the very end. */
  function Cut(s: string, sep: char): seq<string> {
    Pieces(s + [sep], sep)
  }

  lemma CutConcat(a: string, c: string, i: nat)
    requires i < |a|
    ensures (a + c)[i] == a[i] && (a + c)[..i] == a[..i] && (a + c)[i + 1..] == a[i + 1..] + c
  {
  }

  /** The first piece ends within a: it is also the first one when something follows a. */
  lemma FirstOfConcat(a: string, c: string, sep: char, i: nat)
    requires i == IndexOf(a, sep) < |a|
    ensures Pieces(a + c, sep) == [a[..i]] + Pieces(a[i + 1..] + c, sep)
  {
    CutConcat(a, c, i);
    IndexIs(a + c, sep, i);
  }

  /** Whatever follows a separator is cut by itself. */
  lemma {:induction false} PiecesOfConcat(a: string, b: string, sep: char)
    ensures Pieces(a + ([sep] + b), sep) == Cut(a, sep) + Pieces(b, sep)
    decreases |a|
  {
    var i := IndexOf(a, sep);
    if i == |a| {
      WholeFirst(a, b, sep);
    } else {
      PiecesOfConcat(a[i + 1..], b, sep);
      FirstOfConcat(a, [sep] + b, sep, i);
      FirstOfConcat(a, [sep], sep, i);
      Regrouped(a[..i], Cut(a[i + 1..], sep), Pieces(b, sep));
    }
  }

  lemma Regrouped(first: string, front: seq<string>, back: seq<string>)
    ensures [first] + (front + back) == [first] + front + back
  {
  }

  lemma WholeFirst(a: string, b: string, sep: char)
    requires IndexOf(a, sep) == |a|
    ensures Pieces(a + ([sep] + b), sep) == [a] + Pieces(b, sep) && Cut(a, sep) == [a]
  {
    assert a[..|a|] == a;
    FirstBefore(a, b, sep);
    FirstBefore(a, "", sep);
    assert [sep] + "" == [sep];
  }

  lemma FirstBefore(a: string, b: string, sep: char)
    requires sep !in a
    ensures Pieces(a + ([sep] + b), sep) == [a] + Pieces(b, sep)
  {
    assert a + ([sep] + b) == a + [sep] + b;
    FirstPiece(a, b, sep);
  }

  /** No separator is lost. */
  lemma JoinedCut(a: string, sep: char)
    ensures Cut(a, sep) != [] && Joined(Cut(a, sep), sep) == a
  {
    PiecesAreFree(a + [sep], sep);
    JoinedPieces(a + [sep], sep);
    assert (a + [sep])[..|a|] == a;
  }

  /** The pieces of all the parts. */
  function Fragments(parts: seq<string>, sep: char): seq<string> {
    if parts == [] then [""]
    else if |parts| == 1 then Cut(parts[0], sep)
    else Cut(parts[0], sep) + Fragments(parts[1..], sep)
  }

  lemma {:induction false} FragmentsAreCut(parts: seq<string>, sep: char)
    ensures Cut(Joined(parts, sep), sep) == Fragments(parts, sep)
  {
    if parts == [] {
      FirstPiece("", "", sep);
      assert "" + [sep] + "" == [sep] && "" + [sep] == [sep];
    } else if |parts| > 1 {
      var a, b := parts[0], Joined(parts[1..], sep);
      PiecesOfConcat(a, b + [sep], sep);
      assert a + ([sep] + (b + [sep])) == a + [sep] + b + [sep];
      FragmentsAreCut(parts[1..], sep);
    }
  }

  /** Joined, two lists give the same string if and only if their parts are cut alike. */
  lemma JoinedAlike(p: seq<string>, q: seq<string>, sep: char)
    ensures Joined(p, sep) == Joined(q, sep) <==> Fragments(p, sep) == Fragments(q, sep)
  {
    FragmentsAreCut(p, sep);
    FragmentsAreCut(q, sep);
    JoinedCut(Joined(p, sep), sep);
    JoinedCut(Joined(q, sep), sep);
  }

  lemma {:induction false} JoinedSnoc(parts: seq<string>, x: string, sep: char)
    ensures Joined(parts + [x], sep) == if parts == [] then x else Joined(parts, sep) + [sep] + x
  {
    if |parts| > 0 {
      assert (parts + [x])[1..] == parts[1..] + [x];
      JoinedSnoc(parts[1..], x, sep);
    }
  }

  /** Pieces already cut, then those of what remains of s. */
  ghost function After(done: seq<string>, s: string, bk: nat, sep: char): seq<string>
    requires bk <= |s|
  {
    done + Pieces(s[bk..], sep)
  }

  lemma NextPiece(done: seq<string>, s: string, bk: nat, it: nat, sep: char)
    requires bk <= it < |s| && s[it] == sep && forall k :: bk <= k < it ==> s[k] != sep
    ensures After(done, s, bk, sep) == After(done + [s[bk..it]], s, it + 1, sep)
  {
    assert s[bk..] == s[bk..it] + [sep] + s[it + 1..];
    FirstPiece(s[bk..it], s[it + 1..], sep);
  }

  lemma LastPiece(done: seq<string>, s: string, bk: nat, sep: char)
    requires bk <= |s| && forall k :: bk <= k < |s| ==> s[k] != sep
    ensures After(done, s, bk, sep) == if bk == |s| then done else done + [s[bk..]]
  {
    OnlyPiece(s[bk..], sep);
  }

  /** webdar_tools_split_by */
  method SplitBy(sep: char, aggregate: string) returns (splitted: seq<string>)
    ensures splitted == Pieces(aggregate, sep)
  {
    splitted := [];
    var it, bk := 0, 0;
    assert aggregate[0..] == aggregate;
    while it < |aggregate|
      invariant bk <= it <= |aggregate|
      invariant forall k :: bk <= k < it ==> aggregate[k] != sep
      invariant After(splitted, aggregate, bk, sep) == Pieces(aggregate, sep)
    {
      if aggregate[it] == sep {
        NextPiece(splitted, aggregate, bk, it, sep);
        splitted := splitted + [aggregate[bk..it]];
        it := it + 1;
        bk := it;
      } else {
        it := it + 1;
      }
    }
    LastPiece(splitted, aggregate, bk, sep);
    if bk != |aggregate| {
      splitted := splitted + [aggregate[bk..]];
    }
  }

  /** A loop's way of joining: the first part, then the others each after a separator. */
  method Join(parts: seq<string>, sep: char, start: string) returns (ret: string)
    ensures ret == start + Joined(parts, sep)
  {
    ret := start;
    var it := 0;
    if it < |parts| {
      ret := ret + parts[it];
      it := it + 1;
      assert parts[..1] == [parts[0]];
    }
    while it < |parts|
      invariant it <= |parts| && (it == 0 ==> parts == [])
      invariant ret == start + Joined(parts[..it], sep)
    {
      assert parts[..it + 1] == parts[..it] + [parts[it]];
      JoinedSnoc(parts[..it], parts[it], sep);
      ret := ret + [sep];
      ret := ret + parts[it];
      it := it + 1;
    }
    assert parts[..it] == parts;
  }

  ghost predicate Digits(d: string) {
    d != "" && forall i :: 0 <= i < |d| ==> '0' <= d[i] <= '9'
  }

  /** The decimal writing of a number. */
  function Decimal(n: nat): (s: string)
    ensures Digits(s) && ValueOf(s) == n
  {
    var digit := '0' + (n % 10) as char;
    if n < 10 then [digit] else Decimal(n / 10) + [digit]
  }

  function ValueOf(s: string): int {
    if s == "" then 0 else ValueOf(s[..|s| - 1]) * 10 + (s[|s| - 1] as int - '0' as int)
  }

  const INT_MAX: nat := 0x7FFF_FFFF

  function DigitPrefix(s: string): (d: string)
    ensures d <= s && (d != "" ==> Digits(d)) && (|d| < |s| ==> !('0' <= s[|d|] <= '9'))
  {
    if s == "" || !('0' <= s[0] <= '9') then "" else [s[0]] + DigitPrefix(s[1..])
  }

  const SPACES := " \t\n\U{0B}\U{0C}\r"

  function SkipSpaces(s: string): string {
    if s != "" && s[0] in SPACES then SkipSpaces(s[1..]) else s
  }

  function SkipSign(s: string): string {
    if s != "" && s[0] in "+-" then s[1..] else s
  }

  /** webdar_tools_convert_to_int, for numbers that are not negative: after spaces and a sign leading
      digits are read, if they fit, and what follows them does not matter. */
  function ToInt(text: string): (n: int)
    ensures -1 <= n <= INT_MAX
  {
    var s := SkipSpaces(text);
    var d := DigitPrefix(SkipSign(s));
    if d == "" || !(0 <= ValueOf(d) <= INT_MAX) || (s[0] == '-' && ValueOf(d) != 0) then -1 else ValueOf(d)
  }

  /** A number written in decimal is read back if it fits. */
  lemma ToIntOfDecimal(n: nat)
    ensures ToInt(Decimal(n)) == if n <= INT_MAX then n else -1
  {
    var s := Decimal(n);
    assert '0' <= s[0] <= '9';
    assert SkipSpaces(s) == s && SkipSign(s) == s;
    WholePrefix(s, DigitPrefix(s));
  }

  lemma WholePrefix(s: string, d: string)
    requires Digits(s) && d <= s && (|d| < |s| ==> !('0' <= s[|d|] <= '9'))
    ensures d == s
  {
  }

  // ------------------------------------------------------------------ numbers in decimal

  /** The digits of a number, the last one for the units, each other one for ten times the next, with no zero
      in front. */
  lemma {:induction false} DecimalIsPositional(n: nat)
    ensures n < 10 ==> Decimal(n) == [("0123456789")[n]]
    ensures n >= 10 ==> Decimal(n) == Decimal(n / 10) + [("0123456789")[n % 10]] && Decimal(n)[0] != '0'
  {
    assert forall d :: 0 <= d < 10 ==> ("0123456789")[d] == '0' + d as char;
    if n >= 10 {
      DecimalIsPositional(n / 10);
    }
  }

  ghost predicate Blank(s: string) {
    forall i :: 0 <= i < |s| ==> s[i] == ' ' || ('\t' <= s[i] <= '\r')
  }

  lemma {:induction false} SkipsBlank(spaces: string, rest: string)
    requires Blank(spaces) && (rest != "" ==> !Blank([rest[0]]))
    ensures SkipSpaces(spaces + rest) == rest
  {
    if spaces == "" {
      assert spaces + rest == rest;
      assert rest != "" ==> !([rest[0]][0] in SPACES);
    } else {
      assert (spaces + rest)[1..] == spaces[1..] + rest && (spaces + rest)[0] == spaces[0];
      SkipsBlank(spaces[1..], rest);
    }
  }

  lemma {:induction false} PrefixIs(d: string, rest: string)
    requires (forall i :: 0 <= i < |d| ==> '0' <= d[i] <= '9') && (rest != "" ==> !('0' <= rest[0] <= '9'))
    ensures DigitPrefix(d + rest) == d
  {
    if d == "" {
      assert d + rest == rest;
    } else {
      assert (d + rest)[1..] == d[1..] + rest && (d + rest)[0] == d[0];
      PrefixIs(d[1..], rest);
    }
  }

  lemma SignSkipped(sign: string, rest: string)
    requires sign in {"", "+", "-"} && (rest != "" ==> rest[0] != '+' && rest[0] != '-')
    ensures SkipSign(sign + rest) == rest
  {
    if sign == "" {
      assert sign + rest == rest;
    } else {
      assert (sign + rest)[0] == sign[0] && (sign + rest)[1..] == rest;
    }
  }

  /** Blanks, then a sign or none, then digits, then anything but a digit: the number is that of the digits,
      unless it is negative or does not fit an int. Without any digit there is no number. */
  lemma ToIntIs(spaces: string, sign: string, d: string, rest: string)
    requires Blank(spaces) && sign in {"", "+", "-"} && (d == "" || Digits(d))
    requires rest != "" ==> !('0' <= rest[0] <= '9')
    requires sign + d == "" && rest != "" ==> !Blank([rest[0]])
    requires d == "" && rest != "" ==> rest[0] != '+' && rest[0] != '-'
    ensures ToInt(spaces + (sign + (d + rest))) ==
      if d == "" || ValueOf(d) > 2147483647 || (sign == "-" && ValueOf(d) != 0) then -1 else ValueOf(d)
  {
    var t := sign + (d + rest);
    assert d != "" ==> (d + rest)[0] == d[0];
    assert d == "" ==> d + rest == rest;
    assert sign != "" ==> t[0] == sign[0];
    assert sign == "" ==> t == d + rest;
    SkipsBlank(spaces, t);
    SignSkipped(sign, d + rest);
    PrefixIs(d, rest);
    ValueIsNatural(d);
  }

  lemma {:induction false} ValueIsNatural(d: string)
    requires forall i :: 0 <= i < |d| ==> '0' <= d[i] <= '9'
    ensures ValueOf(d) >= 0
  {
    if d != "" {
      ValueIsNatural(d[..|d| - 1]);
    }
  }
}
