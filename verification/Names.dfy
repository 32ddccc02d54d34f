/** Unique group names: the given name, a colon, and a per-name counter. */
module Names {

  function Digit(d: nat): char
    requires d < 10
  {
    '0' + d as char
  }

  /** The decimal numeral of n. */
  function Decimal(n: nat): (s: string)
    ensures 0 < |s|
  {
    if n < 10 then [Digit(n)] else Decimal(n / 10) + [Digit(n % 10)]
  }

  function UniqueName(name: string, n: nat): string {
    name + ":" + Decimal(n)
  }

  lemma NameExamples()
    ensures UniqueName("tp", 0) == "tp:0" && UniqueName("ep", 12) == "ep:12"
  {
    assert Decimal(1) == "1" && Decimal(12) == "12";
  }

  lemma {:induction false} NoColon(n: nat, i: nat)
    requires i < |Decimal(n)|
    ensures Decimal(n)[i] != ':'
  {
    if n >= 10 && i < |Decimal(n / 10)| { NoColon(n / 10, i); }
  }

  lemma DecimalLength(n: nat)
    ensures |Decimal(n)| == 1 <==> n < 10
  {}

  lemma {:induction false} DecimalInjective(a: nat, b: nat)
    requires Decimal(a) == Decimal(b)
    ensures a == b
  {
    var s, t := Decimal(a), Decimal(b);
    DecimalLength(a);
    DecimalLength(b);
    assert s[|s| - 1] == Digit(a % 10) && t[|t| - 1] == Digit(b % 10);
    if a >= 10 {
      assert s[..|s| - 1] == Decimal(a / 10) && t[..|t| - 1] == Decimal(b / 10);
      DecimalInjective(a / 10, b / 10);
    }
  }

  /** The colon before the counter is the last one. */
  lemma LastColon(name: string, n: nat)
    ensures UniqueName(name, n)[|name|] == ':'
    ensures forall k | |name| < k < |UniqueName(name, n)| :: UniqueName(name, n)[k] != ':'
  {
    forall k | |name| < k < |UniqueName(name, n)| ensures UniqueName(name, n)[k] != ':' {
      NoColon(n, k - |name| - 1);
    }
  }

  /** The pair behind a unique name can be read off it, even if the given name itself contains colons and digits. */
  lemma UniqueNameInjective(name: string, n: nat, name': string, n': nat)
    requires UniqueName(name, n) == UniqueName(name', n')
    ensures name == name' && n == n'
  {
    var s := UniqueName(name, n);
    LastColon(name, n);
    LastColon(name', n');
    assert |name| == |name'|;
    assert name == s[..|name|] && name' == s[..|name'|];
    assert Decimal(n) == s[|name| + 1..] && Decimal(n') == s[|name'| + 1..];
    DecimalInjective(n, n');
  }

  function Occurrences(names: seq<string>, name: string): nat {
    if names == [] then 0
    else Occurrences(names[..|names| - 1], name) + (if names[|names| - 1] == name then 1 else 0)
  }

  /** The unique names handed out for a sequence of given names, starting from fresh counters. */
  function Issued(names: seq<string>): (us: seq<string>)
    ensures |us| == |names|
  {
    if names == [] then []
    else
      var init, last := names[..|names| - 1], names[|names| - 1];
      Issued(init) + [UniqueName(last, Occurrences(init, last))]
  }

  lemma {:induction false} OccurrencesGrow(names: seq<string>, i: nat, name: string)
    requires i < |names|
    ensures Occurrences(names[..i], name) <= Occurrences(names, name)
    ensures names[i] == name ==> Occurrences(names[..i], name) < Occurrences(names, name)
  {
    var n := |names| - 1;
    if i < n {
      OccurrencesGrow(names[..n], i, name);
      assert names[..n][..i] == names[..i];
    }
  }

  lemma {:induction false} IssuedAt(names: seq<string>, i: nat)
    requires i < |names|
    ensures Issued(names)[i] == UniqueName(names[i], Occurrences(names[..i], names[i]))
  {
    var n := |names| - 1;
    if i < n {
      IssuedAt(names[..n], i);
      assert names[..n][..i] == names[..i];
    }
  }

  /** Whatever names are asked for, no unique name is handed out twice within a process. */
  lemma IssuedDistinct(names: seq<string>, i: nat, j: nat)
    requires i < j < |names|
    ensures Issued(names)[i] != Issued(names)[j]
  {
    IssuedAt(names, i);
    IssuedAt(names, j);
    assert names[..j][..i] == names[..i];
    OccurrencesGrow(names[..j], i, names[i]);
    if Issued(names)[i] == Issued(names)[j] {
      UniqueNameInjective(names[i], Occurrences(names[..i], names[i]), names[j], Occurrences(names[..j], names[j]));
    }
  }
}
