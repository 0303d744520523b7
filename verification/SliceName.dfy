/** Guessing the name of an archive from that of one of its slices. */
module SliceNames {
  import opened Tools

  const SEP: char := '.'

  /** val is the name of a slice: a basename, a slice number and the extension. As a separator
      at the end of a string is not seen, one more dot makes no difference. */
  ghost predicate IsSlice(val: string, base: string, number: string) {
    && Digits(number)
    && var name := base + [SEP] + number + [SEP] + "dar";
       val == name || val == name + [SEP]
  }

  class HtmlFormInputFile {
    /** The least number of digits of the slice numbers, when it was found. */
    var minDigits: string

    constructor ()
      ensures minDigits == ""
    {
      minDigits := "";
    }

    method SlicenameToBasenameUpdateMinDigits(val: string) returns (ret: string)
      modifies this
      ensures forall base, number :: IsSlice(val, base, number) ==> ret == base && minDigits == MinDigitsFor(number)
      ensures (forall base, number :: !IsSlice(val, base, number)) ==> ret == val && minDigits == ""
    {
      minDigits := "";
      var splitted := SplitBy(SEP, val);
      SliceIffPieces(val);
      if |splitted| < 3 {
        return val;
      }
      if splitted[|splitted| - 1] != "dar" {
        return val;
      }
      var tmp := splitted[|splitted| - 2];
      var isNumber := HasOnlyDigits(tmp);
      if !isNumber {
        return val;
      }
      minDigits := MinDigitsFor(tmp);
      ret := RejoinBase(splitted);
    }
  }

  function MinDigitsFor(number: string): string
    requires number != ""
  {
    if number[0] == '0' then Decimal(|number|) else "0"
  }

  method HasOnlyDigits(tmp: string) returns (yes: bool)
    ensures yes <==> Digits(tmp)
  {
    if tmp == "" {
      return false;
    }
    var it := 0;
    while it < |tmp| && '0' <= tmp[it] <= '9'
      invariant it <= |tmp| && forall i :: 0 <= i < it ==> '0' <= tmp[i] <= '9'
    {
      it := it + 1;
    }
    yes := it == |tmp|;
  }

  method RejoinBase(splitted: seq<string>) returns (ret: string)
    requires |splitted| >= 3
    ensures ret == BaseOf(splitted)
  {
    ret := splitted[0];
    var stopat := |splitted| - 2;
    var i := 1;
    assert splitted[..1] == [splitted[0]];
    while i < stopat
      invariant 1 <= i <= stopat && ret == Joined(splitted[..i], SEP)
    {
      JoinedSnoc(splitted[..i], splitted[i], SEP);
      assert splitted[..i + 1] == splitted[..i] + [splitted[i]];
      ret := ret + [SEP] + splitted[i];
      i := i + 1;
    }
  }

  /** What the pieces of the name of a slice look like. */
  ghost predicate SlicePieces(p: seq<string>) {
    |p| >= 3 && p[|p| - 1] == "dar" && Digits(p[|p| - 2])
  }

  lemma NoSeparator(d: string)
    requires Digits(d)
    ensures SEP !in d
  {
  }

  lemma EndPieces(number: string)
    requires Digits(number)
    ensures Pieces(number + [SEP] + "dar", SEP) == [number, "dar"]
    ensures Pieces(number + [SEP] + ("dar" + [SEP]), SEP) == [number, "dar"]
  {
    NoSeparator(number);
    FirstPiece(number, "dar", SEP);
    OnlyPiece("dar", SEP);
    FirstPiece(number, "dar" + [SEP], SEP);
    FirstPiece("dar", "", SEP);
    assert "dar" + [SEP] + "" == "dar" + [SEP];
  }

  lemma SlicePiecesAre(val: string, base: string, number: string)
    requires IsSlice(val, base, number)
    ensures Pieces(val, SEP) == Cut(base, SEP) + [number, "dar"]
  {
    EndPieces(number);
    var name := base + [SEP] + number + [SEP] + "dar";
    if val == name {
      FollowedBase(val, base, number, "dar");
    } else {
      FollowedBase(val, base, number, "dar" + [SEP]);
    }
  }

  lemma FollowedBase(val: string, base: string, number: string, end: string)
    requires val == base + [SEP] + number + [SEP] + end
    ensures Pieces(val, SEP) == Cut(base, SEP) + Pieces(number + [SEP] + end, SEP)
  {
    var rest := number + [SEP] + end;
    assert val == base + ([SEP] + rest);
    PiecesOfConcat(base, rest, SEP);
  }

  /** Every basename and every number make the name of a slice, and every name whose pieces end
      as they should is made so, of these pieces. */
  lemma SliceIffPieces(val: string)
    ensures forall base, number :: IsSlice(val, base, number) ==>
      SlicePieces(Pieces(val, SEP)) && BaseOf(Pieces(val, SEP)) == base && NumberOf(Pieces(val, SEP)) == number
    ensures SlicePieces(Pieces(val, SEP)) ==> IsSlice(val, BaseOf(Pieces(val, SEP)), NumberOf(Pieces(val, SEP)))
  {
    var p := Pieces(val, SEP);
    forall base, number | IsSlice(val, base, number)
      ensures SlicePieces(p) && BaseOf(p) == base && NumberOf(p) == number
    {
      SlicePiecesAre(val, base, number);
      JoinedCut(base, SEP);
      assert p[..|p| - 2] == Cut(base, SEP);
    }
    if SlicePieces(p) {
      JoinedPieces(val, SEP);
      JoinedEnd(p);
    }
  }

  ghost function BaseOf(p: seq<string>): string {
    if |p| < 2 then "" else Joined(p[..|p| - 2], SEP)
  }

  ghost function NumberOf(p: seq<string>): string {
    if |p| < 2 then "" else p[|p| - 2]
  }

  lemma JoinedEnd(p: seq<string>)
    requires SlicePieces(p)
    ensures Joined(p, SEP) == BaseOf(p) + [SEP] + NumberOf(p) + [SEP] + "dar"
  {
    var n := |p|;
    assert p == p[..n - 1] + [p[n - 1]] && p[..n - 1] == p[..n - 2] + [p[n - 2]];
    JoinedSnoc(p[..n - 1], p[n - 1], SEP);
    JoinedSnoc(p[..n - 2], p[n - 2], SEP);
  }

  /** The result differs from what is given just for the names of slices. */
  lemma OnlySlicesChange(val: string, base: string, number: string)
    requires IsSlice(val, base, number)
    ensures base != val
  {
    assert |val| > |base|;
  }

  /** A basename, a dot, a number and ".dar" make the name of a slice. */
  lemma SliceIs(base: string, number: string)
    requires Digits(number)
    ensures IsSlice(base + "." + number + ".dar", base, number)
  {
    assert [SEP] + "dar" == ".dar" && [SEP] == ".";
    assert base + "." + number + ".dar" == base + [SEP] + number + [SEP] + "dar";
  }

  /** Read as a number, what is kept is how many digits the slice number has if it starts with a zero, and
      zero otherwise. */
  lemma MinDigitsIs(number: string)
    requires Digits(number) && |number| <= INT_MAX
    ensures ToInt(MinDigitsFor(number)) == if number[0] == '0' then |number| else 0
    ensures Digits(MinDigitsFor(number))
  {
    ToIntOfDecimal(|number|);
    ToIntOfDecimal(0);
    assert Decimal(0) == "0";
  }
}
