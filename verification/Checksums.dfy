/**
 The two fingerprints: a run's source checksum and a coverage calculation's input hash. The hash function itself and the
 JSON encoder are taken as injective, so a fingerprint is modelled by the data fed to them.
 */
module Checksums {

  const BAR := '|'

  predicate BarFree(s: string) {
    BAR !in s
  }

  function Digit(d: nat): char
    requires d < 10
  {
    '0' + d as char
  }

  /** Decimal notation without leading zeros. */
  function Decimal(n: nat): (s: string)
    ensures s != [] && (forall c | c in s :: '0' <= c <= '9')
  {
    if n < 10 then [Digit(n)] else Decimal(n / 10) + [Digit(n % 10)]
  }

  lemma {:induction false} DecimalIsInjective(a: nat, b: nat)
    requires Decimal(a) == Decimal(b)
    ensures a == b
  {
    var s, t := Decimal(a), Decimal(b);
    assert s[|s| - 1] == Digit(a % 10) && t[|t| - 1] == Digit(b % 10);
    if a >= 10 && b >= 10 {
      assert s[..|s| - 1] == Decimal(a / 10) && t[..|t| - 1] == Decimal(b / 10);
      DecimalIsInjective(a / 10, b / 10);
    }
  }

  /** Rounding to a whole number, ties to even, as the printing verbs do. */
  function Rounded(x: real): nat
    requires x >= 0.0
  {
    var low := x.Floor;
    var rest := x - low as real;
    if rest < 0.5 || (rest == 0.5 && low % 2 == 0) then low else low + 1
  }

  /** The thousandths that the `%.3f` verb prints. */
  function Millimetres(metres: real): nat
    requires metres >= 0.0
  {
    Rounded(metres * 1000.0)
  }

  /** Three decimals of a number of thousandths. */
  function Fixed3(thousandths: nat): string {
    Decimal(thousandths / 1000) + "."
        + [Digit(thousandths / 100 % 10), Digit(thousandths / 10 % 10), Digit(thousandths % 10)]
  }

  lemma LastDigits(n: nat)
    ensures n == (n / 1000) * 1000 + (n / 100 % 10) * 100 + (n / 10 % 10) * 10 + n % 10
  {
    var tens := n / 10;
    var hundreds := tens / 10;
    assert hundreds == n / 100;
    assert hundreds / 10 == n / 1000;
  }

  lemma Fixed3IsInjective(a: nat, b: nat)
    requires Fixed3(a) == Fixed3(b)
    ensures a == b
  {
    var s, t := Fixed3(a), Fixed3(b);
    var n := |s| - 4;
    assert s[..n] == Decimal(a / 1000) && t[..n] == Decimal(b / 1000);
    assert s[n + 1] == t[n + 1] && s[n + 2] == t[n + 2] && s[n + 3] == t[n + 3];
    DecimalIsInjective(a / 1000, b / 1000);
    LastDigits(a);
    LastDigits(b);
  }

  lemma Fixed3IsBarFree(n: nat)
    ensures BarFree(Fixed3(n))
  {
  }

  /** Stands for the library's time format: injective, and without bars. */
  function FormatTime(nanoseconds: int): string {
    if nanoseconds < 0 then "-" + Decimal(-nanoseconds) else Decimal(nanoseconds)
  }

  lemma FormatTimeIsInjective(a: int, b: int)
    requires FormatTime(a) == FormatTime(b)
    ensures a == b
  {
    var s, t := FormatTime(a), FormatTime(b);
    if a < 0 {
      assert s[0] == '-';
      assert t[0] in t;
      assert s[1..] == Decimal(-a) && t[1..] == Decimal(-b);
      DecimalIsInjective(-a, -b);
    } else {
      assert s[0] in s;
      DecimalIsInjective(a, b);
    }
  }

  /** The fields of an import request that identify its source. */
  datatype Source = Source(track: string, planId: nat, swath: real, startedAt: int, endedAt: int)

  /** What the source feeds to the hash: the raw track, then four fields, each after a bar. */
  function Payload(s: Source): string
    requires s.swath > 0.0
  {
    s.track + [BAR] + Decimal(s.planId) + [BAR] + Fixed3(Millimetres(s.swath)) + [BAR]
      + FormatTime(s.startedAt) + [BAR] + FormatTime(s.endedAt)
  }

  lemma NoBarAfter(u: string, f: string)
    requires BarFree(f)
    ensures var s := u + [BAR] + f; s[|u|] == BAR && forall j | |u| < j < |s| :: s[j] != BAR
  {
    var s := u + [BAR] + f;
    forall j | |u| < j < |s|
      ensures s[j] != BAR
    {
      assert s[j] == f[j - |u| - 1];
    }
  }

  /** The text after the last bar, and hence the text before it, can be told apart. */
  lemma LastField(u: string, f: string, v: string, g: string)
    requires BarFree(f) && BarFree(g) && u + [BAR] + f == v + [BAR] + g
    ensures u == v && f == g
  {
    var s := u + [BAR] + f;
    NoBarAfter(u, f);
    NoBarAfter(v, g);
    assert |u| == |v|;
    assert s[..|u|] == u && s[..|u|] == v;
    assert s[|u| + 1..] == f && s[|u| + 1..] == g;
  }

  /**
   The payload determines the track, the plan, the swath to the millimetre and both times,
   even when the track itself contains bars; and nothing else enters it.
   */
  lemma PayloadIsDecodable(s: Source, t: Source)
    requires s.swath > 0.0 && t.swath > 0.0
    ensures Payload(s) == Payload(t) <==>
      && s.track == t.track && s.planId == t.planId && Millimetres(s.swath) == Millimetres(t.swath)
      && s.startedAt == t.startedAt && s.endedAt == t.endedAt
  {
    if Payload(s) == Payload(t) {
      var a1, b1 := s.track, t.track;
      var a2, b2 := a1 + [BAR] + Decimal(s.planId), b1 + [BAR] + Decimal(t.planId);
      var a3, b3 := a2 + [BAR] + Fixed3(Millimetres(s.swath)), b2 + [BAR] + Fixed3(Millimetres(t.swath));
      var a4, b4 := a3 + [BAR] + FormatTime(s.startedAt), b3 + [BAR] + FormatTime(t.startedAt);
      LastField(a4, FormatTime(s.endedAt), b4, FormatTime(t.endedAt));
      LastField(a3, FormatTime(s.startedAt), b3, FormatTime(t.startedAt));
      FormatTimeIsInjective(s.endedAt, t.endedAt);
      FormatTimeIsInjective(s.startedAt, t.startedAt);
      Fixed3IsBarFree(Millimetres(s.swath));
      Fixed3IsBarFree(Millimetres(t.swath));
      LastField(a2, Fixed3(Millimetres(s.swath)), b2, Fixed3(Millimetres(t.swath)));
      LastField(a1, Decimal(s.planId), b1, Decimal(t.planId));
      DecimalIsInjective(s.planId, t.planId);
      Fixed3IsInjective(Millimetres(s.swath), Millimetres(t.swath));
    }
  }

  // ---------- Sorted checksums ----------

  /** Lexicographic order of strings. */
  predicate AtOrBefore(a: string, b: string) {
    a == [] || (b != [] && (a[0] < b[0] || (a[0] == b[0] && AtOrBefore(a[1..], b[1..]))))
  }

  lemma {:induction false} OrderIsTotal(a: string, b: string)
    ensures AtOrBefore(a, b) || AtOrBefore(b, a)
    ensures AtOrBefore(a, b) && AtOrBefore(b, a) ==> a == b
  {
    if a != [] && b != [] && a[0] == b[0] {
      OrderIsTotal(a[1..], b[1..]);
      assert a == [a[0]] + a[1..] && b == [b[0]] + b[1..];
    }
  }

  lemma {:induction false} OrderIsTransitive(a: string, b: string, c: string)
    requires AtOrBefore(a, b) && AtOrBefore(b, c)
    ensures AtOrBefore(a, c)
  {
    if a != [] && a[0] == b[0] && b[0] == c[0] {
      OrderIsTransitive(a[1..], b[1..], c[1..]);
    }
  }

  predicate IsSorted(s: seq<string>) {
    forall i, j | 0 <= i < j < |s| :: AtOrBefore(s[i], s[j])
  }

  function Insert(x: string, s: seq<string>): seq<string> {
    if s == [] || AtOrBefore(x, s[0]) then [x] + s else [s[0]] + Insert(x, s[1..])
  }

  /** The library's sort. */
  function Sorted(s: seq<string>): seq<string> {
    if s == [] then [] else Insert(s[0], Sorted(s[1..]))
  }

  lemma {:induction false} InsertKeepsElements(x: string, s: seq<string>)
    ensures multiset(Insert(x, s)) == multiset(s) + multiset{x}
  {
    if s != [] && !AtOrBefore(x, s[0]) {
      InsertKeepsElements(x, s[1..]);
      assert s == [s[0]] + s[1..];
    }
  }

  lemma {:induction false} InsertKeepsOrder(x: string, s: seq<string>)
    requires IsSorted(s)
    ensures IsSorted(Insert(x, s))
  {
    if s == [] {
    } else if AtOrBefore(x, s[0]) {
      forall j | 0 <= j < |s|
        ensures AtOrBefore(x, s[j])
      {
        if j > 0 {
          OrderIsTransitive(x, s[0], s[j]);
        }
      }
    } else {
      OrderIsTotal(x, s[0]);
      InsertKeepsOrder(x, s[1..]);
      InsertKeepsElements(x, s[1..]);
      var rest := Insert(x, s[1..]);
      forall j | 0 <= j < |rest|
        ensures AtOrBefore(s[0], rest[j])
      {
        assert rest[j] in multiset(rest);
        assert rest[j] == x || rest[j] in s[1..];
      }
    }
  }

  lemma {:induction false} SortedIsSorted(s: seq<string>)
    ensures IsSorted(Sorted(s)) && multiset(Sorted(s)) == multiset(s)
  {
    if s != [] {
      SortedIsSorted(s[1..]);
      InsertKeepsOrder(s[0], Sorted(s[1..]));
      InsertKeepsElements(s[0], Sorted(s[1..]));
      WithoutHead(s);
    }
  }

  /** Two sorted lists of the same elements are the same list. */
  lemma {:induction false} SortedListsAgree(a: seq<string>, b: seq<string>)
    requires IsSorted(a) && IsSorted(b) && multiset(a) == multiset(b)
    ensures a == b
  {
    assert |multiset(a)| == |a| && |multiset(b)| == |b|;
    if a != [] {
      HeadsAgree(a, b);
      WithoutHead(a);
      WithoutHead(b);
      SortedListsAgree(a[1..], b[1..]);
    }
  }

  lemma WithoutHead(s: seq<string>)
    requires s != []
    ensures s == [s[0]] + s[1..]
    ensures multiset(s[1..]) == multiset(s) - multiset{s[0]}
  {
    assert s == [s[0]] + s[1..];
  }

  lemma HeadsAgree(a: seq<string>, b: seq<string>)
    requires IsSorted(a) && IsSorted(b) && a != [] && b != [] && multiset(a) == multiset(b)
    ensures a[0] == b[0]
  {
    assert a[0] in multiset(b) && b[0] in multiset(a);
    FirstIsLeast(a, b[0]);
    FirstIsLeast(b, a[0]);
    OrderIsTotal(a[0], b[0]);
  }

  lemma FirstIsLeast(s: seq<string>, x: string)
    requires IsSorted(s) && x in s
    ensures AtOrBefore(s[0], x)
  {
    OrderIsTotal(s[0], s[0]);
  }

  /** What a coverage calculation's input hash is computed from. */
  datatype InputHash = InputHash(areaId: nat, coordinateSystem: string, algorithm: string, checksums: seq<string>,
                                 resolution: real)

  function StableInputHash(areaId: nat, coordinateSystem: string, algorithm: string, checksums: seq<string>,
                           resolution: real): InputHash {
    InputHash(areaId, coordinateSystem, algorithm, Sorted(checksums), resolution)
  }

  /** The hash ignores the order of the runs and nothing else. */
  lemma HashIgnoresOnlyOrder(a: seq<string>, b: seq<string>)
    ensures Sorted(a) == Sorted(b) <==> multiset(a) == multiset(b)
  {
    SortedIsSorted(a);
    SortedIsSorted(b);
    if multiset(a) == multiset(b) {
      SortedListsAgree(Sorted(a), Sorted(b));
    }
  }
}
