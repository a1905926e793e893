/** How a federate names the federation it creates or joins: a prefix, with a measurement index. */
module Federations {
  import opened Wrappers

  const INT_MIN: int := -0x8000_0000
  const INT_MAX: int := 0x7fff_ffff

  // ----- Decimal numbers -----

  predicate IsDigit(c: char) {
    '0' <= c <= '9'
  }

  function DigitValue(c: char): nat
    requires IsDigit(c)
  {
    c as int - '0' as int
  }

  function Digit(n: nat): (c: char)
    requires n < 10
    ensures IsDigit(c) && DigitValue(c) == n
  {
    ('0' as int + n) as char
  }

  function Digits(n: nat): (s: string)
    ensures s != [] && forall c :: c in s ==> IsDigit(c)
  {
    if n < 10 then [Digit(n)] else Digits(n / 10) + [Digit(n % 10)]
  }

  /** std::to_string. */
  function ToString(n: int): (s: string)
    ensures s != []
  {
    if n < 0 then "-" + Digits(-n) else Digits(n)
  }

  function Value(s: string): int
    requires forall c :: c in s ==> IsDigit(c)
  {
    if s == [] then 0 else 10 * Value(s[..|s| - 1]) + DigitValue(s[|s| - 1])
  }

  function LeadingDigits(s: string): (d: string)
    ensures forall c :: c in d ==> IsDigit(c)
  {
    if s == [] || !IsDigit(s[0]) then [] else [s[0]] + LeadingDigits(s[1..])
  }

  predicate IsSpace(c: char) {
    c == ' ' || '\U{0009}' <= c <= '\U{000D}'
  }

  function SkipSpaces(s: string): string {
    if s != [] && IsSpace(s[0]) then SkipSpaces(s[1..]) else s
  }

  /** The number at the start of a text, after white space and a sign; what follows it is ignored. */
  function Parse(s: string): Option<int> {
    var t := SkipSpaces(s);
    var u := if t != [] && (t[0] == '-' || t[0] == '+') then t[1..] else t;
    var d := LeadingDigits(u);
    if d == [] then None else Some(if t[0] == '-' then -Value(d) else Value(d))
  }

  /** std::stoi: fails without a number or with one that does not fit 32 bits. */
  function Stoi(s: string): Option<int> {
    var n := Parse(s);
    if n.Some? && INT_MIN <= n.value <= INT_MAX then n else None
  }

  lemma {:induction false} ValueOfDigits(n: nat)
    ensures Value(Digits(n)) == n
  {
    if n >= 10 {
      ValueOfDigits(n / 10);
      assert (Digits(n / 10) + [Digit(n % 10)])[..|Digits(n / 10)|] == Digits(n / 10);
    } else {
      assert [Digit(n)][..0] == [];
    }
  }

  lemma {:induction false} AllLeading(s: string)
    requires forall c :: c in s ==> IsDigit(c)
    ensures LeadingDigits(s) == s
  {
    if s != [] { AllLeading(s[1..]); }
  }

  /** A number printed is parsed back. */
  lemma {:induction false} ParseToString(n: int)
    ensures Parse(ToString(n)) == Some(n)
  {
    var d := Digits(if n < 0 then -n else n);
    assert d[0] in d;
    AllLeading(d);
    ValueOfDigits(if n < 0 then -n else n);
    assert n < 0 ==> ("-" + d)[1..] == d;
  }

  lemma ToStringInjective(a: int, b: int)
    requires ToString(a) == ToString(b)
    ensures a == b
  {
    hide Parse, ToString;
    ParseToString(a);
    ParseToString(b);
  }

  // ----- Names and indices -----

  /** The index -1 stands for the prefix alone. */
  function Name(prefix: string, index: int): string {
    if index == -1 then prefix else prefix + "-" + ToString(index)
  }

  lemma NameInjective(prefix: string, a: int, b: int)
    requires Name(prefix, a) == Name(prefix, b)
    ensures a == b
  {
    hide ToString;
    if a == -1 || b == -1 {
      assert |Name(prefix, a)| == |Name(prefix, b)|;
    } else {
      assert Name(prefix, a)[|prefix| + 1..] == ToString(a) && Name(prefix, b)[|prefix| + 1..] == ToString(b);
      ToStringInjective(a, b);
    }
  }

  /** The index read from a federation name that starts with the prefix; -1 when there is none. */
  function IndexOf(prefix: string, name: string): int
    requires prefix <= name
  {
    if name == prefix then -1
    else var n := Stoi(name[|prefix| + 1..]); if n.Some? then n.value else -1
  }

  function Bumped(index: int): (r: int)
    ensures r > index
  {
    if index == -1 then 1 else index + 1
  }

  /** The index used next, given the name of the federation just left and the latest federation
      found: a federation left before is not joined again. */
  function NextIndex(prefix: string, index: int, current: string, found: Option<string>): int
    requires found.Some? ==> prefix <= found.value
  {
    match found
    case None => if current != "" then Bumped(index) else index
    case Some(latest) => if latest == current then Bumped(index) else IndexOf(prefix, latest)
  }

  /** A name the program itself gives. */
  ghost predicate Canonical(prefix: string, name: string) {
    exists n :: INT_MIN <= n <= INT_MAX && name == Name(prefix, n)
  }

  lemma {:induction false} IndexOfName(prefix: string, n: int)
    requires INT_MIN <= n <= INT_MAX
    ensures prefix <= Name(prefix, n) && IndexOf(prefix, Name(prefix, n)) == n
  {
    hide ToString, Parse;
    if n != -1 {
      assert Name(prefix, n)[|prefix| + 1..] == ToString(n);
      ParseToString(n);
    }
  }

  /** A latest federation other than the one just left is chosen exactly when its name is the prefix
      or the prefix with an index in canonical decimal. */
  lemma LatestIsChosen(prefix: string, index: int, current: string, latest: string)
    requires prefix <= latest && latest != current
    ensures Name(prefix, NextIndex(prefix, index, current, Some(latest))) == latest <==> Canonical(prefix, latest)
  {
    hide ToString, Parse;
    if Canonical(prefix, latest) {
      var n :| INT_MIN <= n <= INT_MAX && latest == Name(prefix, n);
      IndexOfName(prefix, n);
    } else {
      var n := NextIndex(prefix, index, current, Some(latest));
      assert INT_MIN <= n <= INT_MAX;
    }
  }

  /** The federation just left is chosen again exactly when the latest one found has another name but
      the same index, which no canonical name has. */
  lemma LeftIsChosenAgain(prefix: string, index: int, found: Option<string>)
    requires found.Some? ==> prefix <= found.value
    requires Name(prefix, index) != ""
    ensures Name(prefix, NextIndex(prefix, index, Name(prefix, index), found)) == Name(prefix, index) <==>
      found.Some? && found.value != Name(prefix, index) && IndexOf(prefix, found.value) == index
    ensures found.Some? && found.value != Name(prefix, index) && IndexOf(prefix, found.value) == index ==>
      !Canonical(prefix, found.value)
  {
    hide ToString, Parse, IndexOf;
    var next := NextIndex(prefix, index, Name(prefix, index), found);
    if Name(prefix, next) == Name(prefix, index) {
      NameInjective(prefix, next, index);
    }
    if found.Some? && Canonical(prefix, found.value) {
      var n :| INT_MIN <= n <= INT_MAX && found.value == Name(prefix, n);
      IndexOfName(prefix, n);
    }
  }

  /** Such a name: another separator before the index of the federation just left. */
  lemma OtherSeparatorIsLeftAgain(prefix: string)
    ensures var found := prefix + "X5";
      prefix <= found && found != Name(prefix, 5) && Name(prefix,
        NextIndex(prefix, 5, Name(prefix, 5), Some(found))) == Name(prefix, 5)
  {
    var found := prefix + "X5";
    assert found[|prefix| + 1..] == "5";
    assert ToString(5) == "5" by { assert Digit(5) == '5'; }
    ParseToString(5);
    assert Name(prefix, 5)[|prefix|] == '-' && found[|prefix|] == 'X';
  }

  /** With canonical names only, the federation just left is never chosen again, and a different
      latest federation is chosen by its exact name. */
  lemma CanonicalChoice(prefix: string, index: int, found: Option<string>)
    requires found.Some? ==> prefix <= found.value && Canonical(prefix, found.value)
    requires Name(prefix, index) != ""
    ensures var chosen := Name(prefix, NextIndex(prefix, index, Name(prefix, index), found));
      && chosen != Name(prefix, index)
      && (found.Some? && found.value != Name(prefix, index) ==> chosen == found.value)
  {
    hide NextIndex, IndexOf, ToString;
    LeftIsChosenAgain(prefix, index, found);
    if found.Some? && found.value != Name(prefix, index) {
      LatestIsChosen(prefix, index, Name(prefix, index), found.value);
    }
  }

  // ----- Dead federations -----

  function DeadName(prefix: string, index: int): string {
    prefix + "-" + ToString(index)
  }

  /** The name of a federation tried in place of a dead one is not chosen again either. */
  lemma DeadChoice(prefix: string, index: int, found: Option<string>)
    requires found.Some? ==> prefix <= found.value && Canonical(prefix, found.value)
    ensures var chosen := Name(prefix, NextIndex(prefix, index, DeadName(prefix, index), found));
      && chosen != DeadName(prefix, index)
      && (found.Some? && found.value != DeadName(prefix, index) ==> chosen == found.value)
  {
    hide IndexOf, ToString, Canonical;
    if found.Some? && found.value != DeadName(prefix, index) {
      LatestIsChosen(prefix, index, DeadName(prefix, index), found.value);
    } else {
      var next := Bumped(index);
      if next == -1 {
        assert |DeadName(prefix, index)| > |prefix|;
      } else if DeadName(prefix, next) == DeadName(prefix, index) {
        hide DeadName;
        DeadNameInjective(prefix, next, index);
      }
    }
  }

  /** The index after n dead federations were handled. */
  function AfterDead(index: int, n: nat): int {
    if n == 0 then index else Bumped(AfterDead(index, n - 1))
  }

  lemma {:induction false} AfterDeadIncreases(index: int, m: nat, n: nat)
    requires m < n
    ensures AfterDead(index, m) < AfterDead(index, n)
    decreases n
  {
    if m < n - 1 { AfterDeadIncreases(index, m, n - 1); }
  }

  lemma DeadNameInjective(prefix: string, a: int, b: int)
    requires DeadName(prefix, a) == DeadName(prefix, b)
    ensures a == b
  {
    hide ToString;
    assert DeadName(prefix, a)[|prefix| + 1..] == ToString(a) && DeadName(prefix, b)[|prefix| + 1..] == ToString(b);
    ToStringInjective(a, b);
  }

  /** The names tried after 1 to n dead federations. */
  function Tried(prefix: string, index: int, n: nat): set<string> {
    if n == 0 then {} else Tried(prefix, index, n - 1) + {DeadName(prefix, AfterDead(index, n))}
  }

  lemma {:induction false} TriedMembers(prefix: string, index: int, n: nat, s: string)
    ensures s in Tried(prefix, index, n) ==> exists k :: 1 <= k <= n && s == DeadName(prefix, AfterDead(index, k))
  {
    if n > 0 && s in Tried(prefix, index, n - 1) {
      TriedMembers(prefix, index, n - 1, s);
    }
  }

  lemma {:induction false} TriedSize(prefix: string, index: int, n: nat)
    ensures |Tried(prefix, index, n)| == n
  {
    if n > 0 {
      TriedSize(prefix, index, n - 1);
      var last := DeadName(prefix, AfterDead(index, n));
      TriedMembers(prefix, index, n - 1, last);
      if last in Tried(prefix, index, n - 1) {
        var k :| 1 <= k <= n - 1 && last == DeadName(prefix, AfterDead(index, k));
        DeadNameInjective(prefix, AfterDead(index, k), AfterDead(index, n));
        AfterDeadIncreases(index, k, n);
        assert false;
      }
    }
  }

  /** Handling dead federations ends: of finitely many federations that exist, at most all are
      tried before a name that is free. */
  lemma DeadFederationsRunOut(prefix: string, index: int, existing: set<string>) returns (k: nat)
    ensures 1 <= k <= |existing| + 1 && DeadName(prefix, AfterDead(index, k)) !in existing
  {
    var n := |existing| + 1;
    TriedSize(prefix, index, n);
    var tried := Tried(prefix, index, n);
    if tried <= existing {
      SubsetSize(tried, existing);
      assert false;
    }
    var s :| s in tried && s !in existing;
    TriedMembers(prefix, index, n, s);
    k :| 1 <= k <= n && s == DeadName(prefix, AfterDead(index, k));
  }

  lemma {:induction false} SubsetSize(a: set<string>, b: set<string>)
    requires a <= b
    ensures |a| <= |b|
  {
    if a != {} {
      var x :| x in a;
      SubsetSize(a - {x}, b - {x});
    }
  }
}
