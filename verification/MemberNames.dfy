/**
 * Free names for workspace members (packages/server/src/workspace-store.ts:499-501, 605-609): a prefix and
 * the first decimal number that nobody uses yet.
 */
module MemberNames {
  import opened Prelude

  const DIGITS := "0123456789"

  function Decimal(n: nat): (s: string)
    ensures s != []
  {
    if n < 10 then [DIGITS[n]] else Decimal(n / 10) + [DIGITS[n % 10]]
  }

  function DigitValue(c: char): int { c as int - '0' as int }

  function Value(s: string): int {
    if s == [] then 0 else Value(s[..|s| - 1]) * 10 + DigitValue(s[|s| - 1])
  }

  lemma DigitsHaveTheirValue(d: nat)
    requires d < 10
    ensures DigitValue(DIGITS[d]) == d
  {
  }

  lemma {:induction false} DecimalReadsBack(n: nat)
    ensures Value(Decimal(n)) == n
  {
    var s := Decimal(n);
    DigitsHaveTheirValue(n % 10);
    if n < 10 {
      assert s[..0] == [];
    } else {
      DecimalReadsBack(n / 10);
      assert s[..|s| - 1] == Decimal(n / 10);
    }
  }

  function Numbered(prefix: string, n: nat): string {
    prefix + Decimal(n)
  }

  /** Two numbers never give the same name. */
  lemma NumberedIsInjective(prefix: string, m: nat, n: nat)
    requires Numbered(prefix, m) == Numbered(prefix, n)
    ensures m == n
  {
    DecimalReadsBack(m);
    DecimalReadsBack(n);
    assert Numbered(prefix, m)[|prefix|..] == Decimal(m);
    assert Numbered(prefix, n)[|prefix|..] == Decimal(n);
  }

  /** The first number from `start` on whose name is free; a used name is met at most once on the way. */
  function FirstFree(prefix: string, used: set<string>, start: nat): nat
    decreases |used|
  {
    var name := Numbered(prefix, start);
    if name in used then FirstFree(prefix, used - {name}, start + 1) else start
  }

  lemma {:induction false} FirstFreeIsFree(prefix: string, used: set<string>, start: nat)
    ensures start <= FirstFree(prefix, used, start)
    ensures Numbered(prefix, FirstFree(prefix, used, start)) !in used
    ensures forall n :: start <= n < FirstFree(prefix, used, start) ==> Numbered(prefix, n) in used
    decreases |used|
  {
    var name := Numbered(prefix, start);
    if name in used {
      FirstFreeIsFree(prefix, used - {name}, start + 1);
      var n := FirstFree(prefix, used - {name}, start + 1);
      if Numbered(prefix, n) == name {
        NumberedIsInjective(prefix, n, start);
      }
    }
  }

  /** The search loop. It ends because every name it meets is another one of the finitely many used. */
  method SearchFree(prefix: string, used: set<string>, start: nat) returns (index: nat)
    ensures index == FirstFree(prefix, used, start)
    ensures Numbered(prefix, index) !in used
  {
    index := start;
    ghost var left := used;
    while Numbered(prefix, index) in used
      invariant start <= index
      invariant left <= used
      invariant forall n: nat :: n >= index && Numbered(prefix, n) in used ==> Numbered(prefix, n) in left
      invariant FirstFree(prefix, left, index) == FirstFree(prefix, used, start)
      decreases |left|
    {
      var name := Numbered(prefix, index);
      forall n: nat | n > index ensures Numbered(prefix, n) != name {
        if Numbered(prefix, n) == name {
          NumberedIsInjective(prefix, n, index);
        }
      }
      left := left - {name};
      index := index + 1;
    }
    FirstFreeIsFree(prefix, used, start);
  }

  const TERM := "term-"

  /** `term-N` for the first free N. */
  method NextMemberName(used: set<string>, start: nat) returns (name: string)
    ensures name == Numbered(TERM, FirstFree(TERM, used, start))
    ensures name !in used
  {
    var index := SearchFree(TERM, used, start);
    name := Numbered(TERM, index);
  }

  /** The name a member gets where it arrives: its own when free, else with -2, -3 and so on. */
  function ArrivalName(name: string, used: set<string>): (r: string)
    ensures r !in used
    ensures name !in used ==> r == name
    ensures name != [] ==> r != []
  {
    FirstFreeIsFree(name + "-", used, 2);
    if name in used then Numbered(name + "-", FirstFree(name + "-", used, 2)) else name
  }

  method NameOnArrival(name: string, used: set<string>) returns (r: string)
    ensures r == ArrivalName(name, used)
  {
    r := name;
    if name in used {
      var n := SearchFree(name + "-", used, 2);
      r := Numbered(name + "-", n);
    }
  }
}
