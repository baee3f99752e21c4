/**
  Unique names of sub-controllers: parent, type, and a running number for each such pair.
 */
module UniqueNames {
  import opened Bits

  const DELIMITER: string := "__"  // CONTROLLER_LEVEL_DELIMITER

  /** What the running number is attached to. */
  function Base(parentName: string, childType: string): string {
    parentName + DELIMITER + childType
  }

  /** The base begins with the parent's name, which two underscores part from the type; so the types of one parent
      have different bases. */
  lemma BaseExact(parentName: string, childType: string, otherType: string)
    ensures var b, n := Base(parentName, childType), |parentName|;
            |b| >= n + 2 && b[..n] == parentName && b[n] == b[n + 1] == '_' && b[n + 2..] == childType
    ensures Base(parentName, childType) == Base(parentName, otherType) <==> childType == otherType
  {
    var b, c := Base(parentName, childType), Base(parentName, otherType);
    assert b[|parentName| + 2..] == childType && c[|parentName| + 2..] == otherType;
  }

  // ---------------------------------------------------------------------------------------------
  // Numbers in decimal

  function Digit(d: nat): (c: char)
    requires d < 10
    ensures c != '_'
  {
    (('0' as int) + d) as char
  }

  /** What `%u` prints. */
  function Decimal(n: nat): (s: string)
    ensures |s| > 0
    ensures forall i :: 0 <= i < |s| ==> s[i] != '_'
  {
    if n < 10 then [Digit(n)] else Decimal(n / 10) + [Digit(n % 10)]
  }

  function Parsed(s: string): int {
    if s == "" then 0 else 10 * Parsed(s[..|s| - 1]) + (s[|s| - 1] as int - '0' as int)
  }

  lemma {:induction false} ParsedDecimal(n: nat)
    ensures Parsed(Decimal(n)) == n
  {
    if n < 10 {
      assert Decimal(n)[..0] == "";
    } else {
      ParsedDecimal(n / 10);
      assert Decimal(n)[..|Decimal(n)| - 1] == Decimal(n / 10);
    }
  }

  function Name(base: string, count: nat): string {
    base + "_" + Decimal(count)
  }

  /** A name splits at its last underscore, so base and number can be read off it. */
  lemma NameInjective(base: string, count: nat, base': string, count': nat)
    ensures Name(base, count) == Name(base', count') <==> base == base' && count == count'
  {
    var s, s' := Name(base, count), Name(base', count');
    var d, d' := Decimal(count), Decimal(count');
    assert s[|base|] == '_' && s'[|base'|] == '_';
    assert forall i :: |base| < i < |s| ==> s[i] == d[i - |base| - 1];
    assert forall i :: |base'| < i < |s'| ==> s'[i] == d'[i - |base'| - 1];
    if s == s' {
      assert |base| == |base'|;
      assert base == s[..|base|] == base';
      assert d == s[|base| + 1..] == d';
      ParsedDecimal(count);
      ParsedDecimal(count');
    }
  }

  // ---------------------------------------------------------------------------------------------
  // All names since the last reset

  /** How often a base name has been asked for. */
  function Count(bases: seq<string>, base: string): nat {
    if bases == [] then 0
    else Count(bases[..|bases| - 1], base) + (if bases[|bases| - 1] == base then 1 else 0)
  }

  lemma CountSnoc(bases: seq<string>, last: string, base: string)
    ensures Count(bases + [last], base) == Count(bases, base) + (if base == last then 1 else 0)
  {
    assert (bases + [last])[..|bases|] == bases;
  }

  /** The name that the request number k got. */
  function NameAt(bases: seq<string>, k: nat): string
    requires k < |bases|
  {
    Name(bases[k], Count(bases[..k], bases[k]) % 0x1_0000)
  }

  lemma {:induction false} CountGrows(bases: seq<string>, base: string, i: nat, j: nat)
    requires i <= j <= |bases|
    ensures Count(bases[..i], base) <= Count(bases[..j], base)
    ensures i < j && bases[i] == base ==> Count(bases[..i], base) < Count(bases[..j], base)
    decreases j - i
  {
    if i < j {
      CountGrows(bases, base, i, j - 1);
      assert bases[..j][..j - 1] == bases[..j - 1];
    }
  }

  lemma SameCount(a: nat, b: nat)
    ensures a % 0x1_0000 == b % 0x1_0000 <==> (b - a) % 0x1_0000 == 0
  {
  }

  /** Two requests get the same name exactly if they have the same base and the counter has come round. */
  lemma SameNameExact(bases: seq<string>, i: nat, j: nat)
    requires i < j < |bases|
    ensures NameAt(bases, i) == NameAt(bases, j)
            <==> && bases[i] == bases[j]
                 && (Count(bases[..j], bases[j]) - Count(bases[..i], bases[i])) % 0x1_0000 == 0
  {
    hide Count, Name;
    var m, n := Count(bases[..i], bases[i]), Count(bases[..j], bases[j]);
    NameInjective(bases[i], m % 0x1_0000, bases[j], n % 0x1_0000);
    SameCount(m, n);
  }

  /** No base name is asked for more than 65536 times. */
  ghost predicate Moderate(bases: seq<string>) {
    forall base :: Count(bases, base) <= 0x1_0000
  }

  /** Then the names are pairwise distinct. */
  lemma NamesDistinct(bases: seq<string>, i: nat, j: nat)
    requires i < j < |bases| && Moderate(bases)
    ensures NameAt(bases, i) != NameAt(bases, j)
  {
    hide Count, NameAt;
    var b := bases[i];
    SameNameExact(bases, i, j);
    if bases[j] == b {
      CountGrows(bases, b, i, j);
      CountGrows(bases, b, j, j + 1);
      CountGrows(bases, b, j + 1, |bases|);
      assert bases[..|bases|] == bases;
    }
  }

  /** The stored counter of a base: one less than the number of requests, and absent before the first. */
  ghost predicate Tracks(counts: map<string, UInt16>, bases: seq<string>, b: string) {
    && (b in counts <==> Count(bases, b) > 0)
    && (b in counts ==> counts[b] == (Count(bases, b) - 1) % 0x1_0000)
  }

  class NameCache {
    var counts: map<string, UInt16>  // controllerChildCounts
    ghost var bases: seq<string>     // asked for since the last reset

    ghost predicate Valid()
      reads this
    {
      forall b :: Tracks(counts, bases, b)
    }

    constructor ()
      ensures Valid() && bases == []
    {
      counts, bases := map[], [];
    }

    method GetUniqueName(parentName: string, childType: string) returns (name: string)
      requires Valid()
      modifies this
      ensures Valid() && bases == old(bases) + [Base(parentName, childType)]
      ensures name == NameAt(bases, |old(bases)|)
    {
      hide Decimal;
      var base := Base(parentName, childType);
      var count: UInt16;
      assert Tracks(counts, bases, base);
      if base !in counts {
        count := 0;
      } else {
        var n: int := counts[base];
        count := (n + 1) % 0x1_0000;
      }
      assert count == Count(bases, base) % 0x1_0000;
      ghost var before := counts;
      counts := counts[base := count];
      bases := bases + [base];
      forall b
        ensures Tracks(counts, bases, b)
      {
        assert Tracks(before, old(bases), b);
        CountSnoc(old(bases), base, b);
      }
      name := base + "_" + Decimal(count);
      assert bases[..|bases| - 1] == old(bases);
    }

    method ResetControllerNames()
      modifies this
      ensures Valid() && bases == []
    {
      counts, bases := map[], [];
    }
  }
}
