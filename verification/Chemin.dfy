/** Paths, the strings that display them, and the identifiers made from them. */
module Chemins {
  import opened Tools

  datatype Outcome = Done | RangeError

  const SLASH: char := '/'

  function NonEmpty(parts: seq<string>): seq<string> {
    if parts == [] then []
    else NonEmpty(parts[..|parts| - 1]) + if parts[|parts| - 1] == "" then [] else [parts[|parts| - 1]]
  }

  /** The members of the path that a string displays. */
  function Parsed(path: string): seq<string> {
    NonEmpty(Pieces(path, SLASH))
  }

  function Displayed(members: seq<string>, relative: bool): string {
    (if relative then "" else [SLASH]) + Joined(members, SLASH)
  }

  function Namified(members: seq<string>): string {
    Joined(members, '_')
  }

  ghost predicate IsBeginning(p: seq<string>, q: seq<string>) {
    exists rest :: q == p + rest
  }

  class Chemin {
    var members: seq<string>

    constructor Empty()
      ensures members == []
    {
      members := [];
    }

    constructor (path: string)
      ensures members == Parsed(path)
    {
      members := [];
      new;
      var tmp := SplitBy(SLASH, path);
      ghost var all := tmp;
      while tmp != []
        invariant NonEmpty(tmp) + members == NonEmpty(all)
        decreases |tmp|
      {
        if tmp[|tmp| - 1] != "" {
          members := [tmp[|tmp| - 1]] + members;
        }
        tmp := tmp[..|tmp| - 1];
      }
    }

    method IsTheBeginningOf(ref: Chemin) returns (yes: bool)
      ensures yes <==> IsBeginning(members, ref.members)
    {
      var i := 0;
      while i < |members| && i < |ref.members| && members[i] == ref.members[i]
        invariant i <= |members| && i <= |ref.members| && members[..i] == ref.members[..i]
      {
        i := i + 1;
      }
      yes := i == |members|;
      if yes {
        assert ref.members == members + ref.members[i..];
      } else {
        forall rest ensures ref.members != members + rest {
          assert (members + rest)[i] == members[i];
        }
      }
    }

    /** Refuses a member that holds a slash. */
    method PushBack(x: string) returns (out: Outcome)
      modifies this
      ensures out.RangeError? <==> SLASH in x
      ensures members == if out.Done? then old(members) + [x] else old(members)
    {
      if SLASH in x {
        return RangeError;
      }
      members := members + [x];
      out := Done;
    }

    method Append(ref: Chemin)
      requires ref != this
      modifies this
      ensures members == old(members) + ref.members
      ensures IsBeginning(old(members), members)
    {
      var it := 0;
      while it < |ref.members|
        invariant it <= |ref.members| && ref.members == old(ref.members)
        invariant members == old(members) + ref.members[..it]
      {
        members := members + [ref.members[it]];
        it := it + 1;
      }
    }

    method PopFront() returns (out: Outcome)
      modifies this
      ensures out.RangeError? <==> old(members) == []
      ensures out.Done? ==> old(members) == [old(members)[0]] + members
      ensures out.RangeError? ==> members == old(members)
    {
      if members == [] {
        return RangeError;
      }
      members := members[1..];
      out := Done;
    }

    method PopBack() returns (out: Outcome)
      modifies this
      ensures out.RangeError? <==> old(members) == []
      ensures out.Done? ==> old(members) == members + [old(members)[|old(members)| - 1]]
      ensures out.RangeError? ==> members == old(members)
    {
      if members == [] {
        return RangeError;
      }
      members := members[..|members| - 1];
      out := Done;
    }

    method Display(relative: bool) returns (ret: string)
      ensures ret == Displayed(members, relative)
    {
      ret := Join(members, SLASH, if relative then "" else [SLASH]);
    }

    method Namify() returns (ret: string)
      ensures ret == Namified(members)
    {
      ret := Join(members, '_', "");
    }
  }

  // ------------------------------------------------------------------ displaying and parsing

  /** Members that parsing can produce: none is empty, none holds a slash. */
  ghost predicate Clean(members: seq<string>) {
    Free(members, SLASH) && forall i :: 0 <= i < |members| ==> members[i] != ""
  }

  lemma {:induction false} NonEmptyIs(parts: seq<string>, sep: char)
    ensures forall i :: 0 <= i < |NonEmpty(parts)| ==> NonEmpty(parts)[i] != "" && NonEmpty(parts)[i] in parts
    ensures (forall i :: 0 <= i < |parts| ==> parts[i] != "") ==> NonEmpty(parts) == parts
  {
    if parts != [] {
      var last := |parts| - 1;
      NonEmptyIs(parts[..last], sep);
      assert parts == parts[..last] + [parts[last]];
    }
  }

  lemma ParsedIsClean(path: string)
    ensures Clean(Parsed(path))
  {
    PiecesAreFree(path, SLASH);
    NonEmptyIs(Pieces(path, SLASH), SLASH);
  }

  lemma {:induction false} NonEmptyAfter(x: string, parts: seq<string>)
    ensures NonEmpty([x] + parts) == (if x == "" then [] else [x]) + NonEmpty(parts)
  {
    if parts == [] {
      assert [x] + parts == [x];
      assert [x][..0] == [];
    } else {
      var last := |parts| - 1;
      assert ([x] + parts)[..last + 1] == [x] + parts[..last];
      NonEmptyAfter(x, parts[..last]);
    }
  }

  /** A path is read back from what displays it, absolute or relative, if and only if its members
      are clean. */
  lemma ParsedDisplay(members: seq<string>, relative: bool)
    ensures Parsed(Displayed(members, relative)) == members <==> Clean(members)
  {
    ParsedIsClean(Displayed(members, relative));
    if Clean(members) {
      PiecesOfJoined(members, SLASH);
      NonEmptyIs(members, SLASH);
      if !relative {
        assert Displayed(members, relative) == "" + [SLASH] + Joined(members, SLASH);
        FirstPiece("", Joined(members, SLASH), SLASH);
        NonEmptyAfter("", members);
      } else {
        assert Displayed(members, relative) == Joined(members, SLASH);
      }
    }
  }

  /** What is displayed, member by member: a slash between two members, and one before them all if the path
      is not relative, even if it has none. */
  lemma DisplayIs(x: string, members: seq<string>)
    ensures Displayed([], true) == "" && Displayed([x], true) == x
    ensures members != [] ==> Displayed([x] + members, true) == x + "/" + Displayed(members, true)
    ensures Displayed(members, false) == "/" + Displayed(members, true)
  {
    assert members != [] ==> ([x] + members)[1..] == members;
  }

  /** And of an identifier, underscores between the members and nothing else. */
  lemma NamifyIs(x: string, members: seq<string>)
    ensures Namified([]) == "" && Namified([x]) == x
    ensures members != [] ==> Namified([x] + members) == x + "_" + Namified(members)
  {
    assert members != [] ==> ([x] + members)[1..] == members;
  }

  /** A slash at the start, at the end or next to another makes no difference: what is before a slash is read
      by itself, and what is after it. */
  lemma ParsedAround(a: string, b: string)
    ensures Parsed(a + ("/" + b)) == Parsed(a) + Parsed(b)
    ensures SLASH !in a ==> Parsed(a) == if a == "" then [] else [a]
  {
    PiecesOfConcat(a, b, SLASH);
    assert [SLASH] + b == "/" + b;
    NonEmptyConcat(Cut(a, SLASH), Pieces(b, SLASH));
    CutOrPieces(a);
    if SLASH !in a {
      OnlyPiece(a, SLASH);
    }
  }

  lemma {:induction false} NonEmptyConcat(p: seq<string>, q: seq<string>)
    ensures NonEmpty(p + q) == NonEmpty(p) + NonEmpty(q)
    decreases |q|
  {
    if q == [] {
      assert p + q == p;
    } else {
      var last := |q| - 1;
      assert (p + q)[..|p + q| - 1] == p + q[..last];
      NonEmptyConcat(p, q[..last]);
    }
  }

  /** An empty piece at the end is all that cutting sees more. */
  lemma {:induction false} CutOrPieces(a: string)
    ensures NonEmpty(Cut(a, SLASH)) == NonEmpty(Pieces(a, SLASH))
    decreases |a|
  {
    var i := IndexOf(a, SLASH);
    if i == |a| {
      OnlyPiece(a, SLASH);
      FirstPiece(a, "", SLASH);
      assert a + [SLASH] + "" == a + [SLASH];
      NonEmptyAfter(a, []);
    } else {
      assert a == a[..i] + [SLASH] + a[i + 1..] && a + [SLASH] == a[..i] + [SLASH] + (a[i + 1..] + [SLASH]);
      FirstPiece(a[..i], a[i + 1..], SLASH);
      FirstPiece(a[..i], a[i + 1..] + [SLASH], SLASH);
      CutOrPieces(a[i + 1..]);
      NonEmptyAfter(a[..i], Pieces(a[i + 1..], SLASH));
      NonEmptyAfter(a[..i], Cut(a[i + 1..], SLASH));
    }
  }

  /** Two clean paths displayed alike are the same. */
  lemma DisplayTellsApart(p: seq<string>, q: seq<string>, relative: bool)
    requires Clean(p) && Clean(q) && Displayed(p, relative) == Displayed(q, relative)
    ensures p == q
  {
    ParsedDisplay(p, relative);
    ParsedDisplay(q, relative);
  }

  // ------------------------------------------------------------------ being the beginning of

  lemma BeginningIsOrder(p: seq<string>, q: seq<string>, r: seq<string>)
    ensures IsBeginning(p, p)
    ensures IsBeginning(p, q) && IsBeginning(q, p) ==> p == q
    ensures IsBeginning(p, q) && IsBeginning(q, r) ==> IsBeginning(p, r)
  {
    assert p == p + [];
    if IsBeginning(p, q) && IsBeginning(q, r) {
      var a :| q == p + a;
      var b :| r == q + b;
      assert r == p + (a + b);
    }
    if IsBeginning(p, q) && IsBeginning(q, p) {
      var a :| q == p + a;
      var b :| p == q + b;
      assert |a| == 0;
    }
  }

  // ------------------------------------------------------------------ identifiers

  ghost predicate Wide(parts: seq<string>, width: nat) {
    forall i :: 0 <= i < |parts| ==> |parts[i]| == width
  }

  lemma {:induction false} JoinedWidth(parts: seq<string>, width: nat, sep: char)
    requires Wide(parts, width)
    ensures |Joined(parts, sep)| == if parts == [] then 0 else |parts| * (width + 1) - 1
  {
    if |parts| > 1 {
      JoinedWidth(parts[1..], width, sep);
    }
  }

  lemma {:induction false} JoinedConcat(a: seq<string>, b: seq<string>, sep: char)
    requires a != [] && b != []
    ensures Joined(a + b, sep) == Joined(a, sep) + [sep] + Joined(b, sep)
  {
    if |a| == 1 {
      assert (a + b)[1..] == b;
    } else {
      assert (a + b)[1..] == a[1..] + b;
      JoinedConcat(a[1..], b, sep);
    }
  }

  lemma {:induction false} WideTellApart(p: seq<string>, q: seq<string>, width: nat, sep: char)
    requires Wide(p, width) && Wide(q, width) && |p| == |q| && Joined(p, sep) == Joined(q, sep)
    ensures p == q
  {
    if |p| > 0 {
      var jp, jq := Joined(p, sep), Joined(q, sep);
      assert jp[..width] == p[0] && jq[..width] == q[0];
      if |p| > 1 {
        assert jp[width + 1..] == Joined(p[1..], sep) && jq[width + 1..] == Joined(q[1..], sep);
        WideTellApart(p[1..], q[1..], width, sep);
      }
      assert p == [p[0]] + p[1..] && q == [q[0]] + q[1..];
    }
  }

  /** The length of what a prefix and a tail of names of one width give tells that of the tail. */
  lemma NamifiedWidth(prefix: seq<string>, p: seq<string>, width: nat)
    requires width > 0 && Wide(p, width)
    ensures |Namified(prefix + p)| ==
      if p == [] then |Namified(prefix)|
      else (if prefix == [] then 0 else |Namified(prefix)| + 1) + |p| * (width + 1) - 1
  {
    JoinedWidth(p, width, '_');
    if p == [] {
      assert prefix + p == prefix;
    } else if prefix == [] {
      assert prefix + p == p;
    } else {
      JoinedConcat(prefix, p, '_');
    }
  }

  lemma SameTailLength(width: nat, m: nat, n: nat)
    requires m * (width + 1) == n * (width + 1)
    ensures m == n
  {
    if m < n {
      LessTimes(m, n, width + 1);
    }
    if n < m {
      LessTimes(n, m, width + 1);
    }
  }

  lemma {:induction false} LessTimes(m: nat, n: nat, k: nat)
    requires m < n
    ensures m * k + k <= n * k
    decreases n
  {
    if m + 1 < n {
      LessTimes(m, n - 1, k);
    }
    assert n * k == (n - 1) * k + k;
  }

  /** Identifiers tell apart the paths made of one prefix and names of one width. */
  lemma NamifyTellsApart(prefix: seq<string>, p: seq<string>, q: seq<string>, width: nat)
    requires width > 0 && Wide(p, width) && Wide(q, width) && Namified(prefix + p) == Namified(prefix + q)
    ensures p == q
  {
    SameLength(prefix, p, q, width);
    if p != [] {
      if prefix == [] {
        assert prefix + p == p && prefix + q == q;
      } else {
        JoinedConcat(prefix, p, '_');
        JoinedConcat(prefix, q, '_');
        var start := |Joined(prefix, '_')| + 1;
        assert Namified(prefix + p)[start..] == Joined(p, '_');
        assert Namified(prefix + q)[start..] == Joined(q, '_');
      }
      WideTellApart(p, q, width, '_');
    }
  }

  lemma SameLength(prefix: seq<string>, p: seq<string>, q: seq<string>, width: nat)
    requires width > 0 && Wide(p, width) && Wide(q, width) && Namified(prefix + p) == Namified(prefix + q)
    ensures |p| == |q|
  {
    NamifiedWidth(prefix, p, width);
    NamifiedWidth(prefix, q, width);
    AtLeastOne(|p|, width);
    AtLeastOne(|q|, width);
    if p != [] && q != [] {
      SameTailLength(width, |p|, |q|);
    }
  }

  lemma AtLeastOne(n: nat, width: nat)
    ensures n > 0 ==> n * (width + 1) >= width + 1
  {
  }

  /** Identifiers also tell apart the paths whose members are not empty and hold no underscore. */
  lemma NamifyTellsApartPlain(p: seq<string>, q: seq<string>)
    requires Free(p, '_') && Free(q, '_') && Namified(p) == Namified(q)
    requires forall i :: 0 <= i < |p| ==> p[i] != ""
    requires forall i :: 0 <= i < |q| ==> q[i] != ""
    ensures p == q
  {
    PiecesOfJoined(p, '_');
    PiecesOfJoined(q, '_');
  }

  /** Two paths share an identifier if and only if their members, cut at every underscore, give the
      same pieces. */
  lemma NamifySameIff(p: seq<string>, q: seq<string>)
    ensures Namified(p) == Namified(q) <==> Fragments(p, '_') == Fragments(q, '_')
  {
    JoinedAlike(p, q, '_');
  }

  /** So they do not tell apart all the paths. */
  lemma NamifyCollides()
    ensures ["a_b"] != ["a", "b"] && Clean(["a_b"]) && Clean(["a", "b"])
    ensures Namified(["a_b"]) == Namified(["a", "b"])
  {
    assert ["a", "b"][1..] == ["b"];
  }
}
