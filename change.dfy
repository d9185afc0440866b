/** The change-making engine of the back end (backend/internal/domain/change.go).
    Money is counted in integer cents; a breakdown maps a denomination's name to
    how many of it are handed out. */
module Change {
  import opened Wrappers

  /** One calculation: what the customer owes and what they paid, in cents. */
  datatype ChangeRequest = ChangeRequest(amountOwed: int, amountPaid: int)

  /** A breakdown of the change by denomination name, and the change in cents. */
  datatype ChangeResult = ChangeResult(denominations: map<string, int>, total: int)

  /** A coin or note: the name used as a key in breakdowns and its value in cents. */
  datatype Denomination = Denomination(name: string, value: int)

  /** The US denominations, largest first. */
  const Denominations: seq<Denomination> := [
    Denomination("dollar", 100),
    Denomination("quarter", 25),
    Denomination("dime", 10),
    Denomination("nickel", 5),
    Denomination("penny", 1)
  ]

  const NegativeChangeMessage: string := "amount paid must be greater than or equal to amount owed"

  // ---------------------------------------------------------------------------
  // Denomination lists
  // ---------------------------------------------------------------------------

  function Names(ds: seq<Denomination>): set<string> {
    if ds == [] then {} else {ds[0].name} + Names(ds[1..])
  }

  ghost predicate PositiveValues(ds: seq<Denomination>) {
    forall i :: 0 <= i < |ds| ==> ds[i].value > 0
  }

  ghost predicate DistinctNames(ds: seq<Denomination>) {
    ds == [] || (ds[0].name !in Names(ds[1..]) && DistinctNames(ds[1..]))
  }

  ghost predicate WellFormed(ds: seq<Denomination>) {
    PositiveValues(ds) && DistinctNames(ds)
  }

  lemma DenominationsWellFormed()
    ensures WellFormed(Denominations)
    ensures Names(Denominations) == {"dollar", "quarter", "dime", "nickel", "penny"}
  {
    var d := Denominations;
    assert d[4..][1..] == [];
    assert d[3..][1..] == d[4..];
    assert d[2..][1..] == d[3..];
    assert d[1..][1..] == d[2..];
    assert Names(d[4..]) == {"penny"};
    assert Names(d[3..]) == {"nickel", "penny"};
    assert Names(d[2..]) == {"dime", "nickel", "penny"};
    assert Names(d[1..]) == {"quarter", "dime", "nickel", "penny"};
  }

  /** The prefix one element longer. */
  lemma TakeOneMore<T>(s: seq<T>, i: int)
    requires 0 <= i < |s|
    ensures s[..i + 1] == s[..i] + [s[i]]
    ensures |s[..i + 1]| == i + 1 && s[..i + 1][..i] == s[..i] && s[..i + 1][i] == s[i]
  {
  }

  lemma {:induction false} NameAt(ds: seq<Denomination>, i: int)
    requires 0 <= i < |ds|
    ensures ds[i].name in Names(ds)
  {
    if i > 0 { NameAt(ds[1..], i - 1); }
  }

  lemma {:induction false} NamesAppend(ds: seq<Denomination>, d: Denomination)
    ensures Names(ds + [d]) == Names(ds) + {d.name}
  {
    if ds != [] {
      assert (ds + [d])[1..] == ds[1..] + [d];
      NamesAppend(ds[1..], d);
    } else {
      assert [d][1..] == [];
    }
  }

  /** In a list with distinct names, no denomination's name occurs before it. */
  lemma {:induction false} NameNotEarlier(ds: seq<Denomination>, i: int)
    requires DistinctNames(ds) && 0 <= i < |ds|
    ensures ds[i].name !in Names(ds[..i])
  {
    if i > 0 {
      NameAt(ds[1..], i - 1);
      NameNotEarlier(ds[1..], i - 1);
      assert ds[..i] == [ds[0]] + ds[1..][..i - 1];
    }
  }

  // ---------------------------------------------------------------------------
  // What a breakdown is worth
  // ---------------------------------------------------------------------------

  /** The count of a denomination; a missing key counts zero, as a Go map read does. */
  function CountOf(m: map<string, int>, name: string): int {
    if name in m then m[name] else 0
  }

  /** The sum of count times value over the denominations `ds`. */
  function Worth(m: map<string, int>, ds: seq<Denomination>): int {
    if ds == [] then 0 else CountOf(m, ds[0].name) * ds[0].value + Worth(m, ds[1..])
  }

  /** The number of coins and notes over the denominations `ds`. */
  function Coins(m: map<string, int>, ds: seq<Denomination>): int {
    if ds == [] then 0 else CountOf(m, ds[0].name) + Coins(m, ds[1..])
  }

  /** A valid breakdown of `cents`: only known denominations, each with a positive
      count, summing to exactly `cents`. */
  ghost predicate SumsTo(m: map<string, int>, cents: int) {
    m.Keys <= Names(Denominations)
    && (forall n :: n in m ==> m[n] >= 1)
    && Worth(m, Denominations) == cents
  }

  lemma {:induction false} WorthIgnores(m: map<string, int>, name: string, count: int, ds: seq<Denomination>)
    requires name !in Names(ds)
    ensures Worth(m[name := count], ds) == Worth(m, ds)
    ensures Coins(m[name := count], ds) == Coins(m, ds)
  {
    if ds != [] { WorthIgnores(m, name, count, ds[1..]); }
  }

  /** Adding a denomination that was absent adds its count times its value. */
  lemma {:induction false} WorthInsert(m: map<string, int>, ds: seq<Denomination>, i: int, count: int)
    requires DistinctNames(ds) && 0 <= i < |ds| && ds[i].name !in m
    ensures Worth(m[ds[i].name := count], ds) == Worth(m, ds) + count * ds[i].value
  {
    if i == 0 {
      WorthIgnores(m, ds[0].name, count, ds[1..]);
    } else {
      NameAt(ds[1..], i - 1);
      WorthInsert(m, ds[1..], i - 1, count);
    }
  }

  lemma WorthUS(m: map<string, int>)
    ensures Worth(m, Denominations) == 100 * CountOf(m, "dollar") + 25 * CountOf(m, "quarter")
              + 10 * CountOf(m, "dime") + 5 * CountOf(m, "nickel") + CountOf(m, "penny")
    ensures Coins(m, Denominations) == CountOf(m, "dollar") + CountOf(m, "quarter")
              + CountOf(m, "dime") + CountOf(m, "nickel") + CountOf(m, "penny")
  {
    var d := Denominations;
    assert d[4..][1..] == [];
    assert d[3..][1..] == d[4..];
    assert d[2..][1..] == d[3..];
    assert d[1..][1..] == d[2..];
    assert Worth(m, d[4..]) == CountOf(m, "penny");
    assert Worth(m, d[3..]) == 5 * CountOf(m, "nickel") + Worth(m, d[4..]);
    assert Worth(m, d[2..]) == 10 * CountOf(m, "dime") + Worth(m, d[3..]);
    assert Worth(m, d[1..]) == 25 * CountOf(m, "quarter") + Worth(m, d[2..]);
    assert Coins(m, d[4..]) == CountOf(m, "penny");
    assert Coins(m, d[3..]) == CountOf(m, "nickel") + Coins(m, d[4..]);
    assert Coins(m, d[2..]) == CountOf(m, "dime") + Coins(m, d[3..]);
    assert Coins(m, d[1..]) == CountOf(m, "quarter") + Coins(m, d[2..]);
  }

  /** Two breakdowns over the known denominations with positive counts are equal
      when they agree on every denomination's count. */
  lemma SameCounts(m1: map<string, int>, m2: map<string, int>)
    requires m1.Keys <= Names(Denominations) && m2.Keys <= Names(Denominations)
    requires forall n :: n in m1 ==> m1[n] >= 1
    requires forall n :: n in m2 ==> m2[n] >= 1
    requires forall n :: n in Names(Denominations) ==> CountOf(m1, n) == CountOf(m2, n)
    ensures m1 == m2
  {
    assert m1.Keys == m2.Keys by {
      forall n | n in m1 ensures n in m2 { assert CountOf(m1, n) == CountOf(m2, n); }
      forall n | n in m2 ensures n in m1 { assert CountOf(m1, n) == CountOf(m2, n); }
    }
    forall n | n in m1 ensures m1[n] == m2[n] { assert CountOf(m1, n) == CountOf(m2, n); }
  }

  // ---------------------------------------------------------------------------
  // Greedy breakdown (minimumChange)
  // ---------------------------------------------------------------------------

  /** The breakdown the greedy walk over `ds` builds from `remaining`: a
      denomination is taken, as many times as it fits, only when it fits at least
      once; what is left over is carried to the next denomination. */
  function GreedyFrom(remaining: int, ds: seq<Denomination>): (m: map<string, int>)
    requires PositiveValues(ds)
    ensures m.Keys <= Names(ds)
    ensures forall n :: n in m ==> m[n] >= 1
  {
    if ds == [] then map[]
    else if remaining >= ds[0].value then
      GreedyFrom(remaining % ds[0].value, ds[1..])[ds[0].name := remaining / ds[0].value]
    else
      GreedyFrom(remaining, ds[1..])
  }

  /** The greedy breakdown of `cents` over the US denominations. */
  function Greedy(cents: int): (m: map<string, int>)
  {
    DenominationsWellFormed();
    GreedyFrom(cents, Denominations)
  }

  /** The greedy count of the first denomination is how many times it fits; every
      other count is the greedy count of the remainder over the rest. */
  lemma GreedyHead(remaining: int, ds: seq<Denomination>)
    requires WellFormed(ds) && ds != [] && remaining >= 0
    ensures CountOf(GreedyFrom(remaining, ds), ds[0].name) == remaining / ds[0].value
    ensures forall n :: n != ds[0].name ==>
              CountOf(GreedyFrom(remaining, ds), n) == CountOf(GreedyFrom(remaining % ds[0].value, ds[1..]), n)
  {
    if remaining < ds[0].value {
      assert remaining / ds[0].value == 0 && remaining % ds[0].value == remaining;
    }
  }

  /** Greedy over a list that ends in a one-cent denomination hands out exactly
      `remaining`. */
  lemma {:induction false} GreedyWorth(remaining: int, ds: seq<Denomination>)
    requires WellFormed(ds) && ds != [] && ds[|ds| - 1].value == 1 && remaining >= 0
    ensures Worth(GreedyFrom(remaining, ds), ds) == remaining
  {
    var d := ds[0];
    if |ds| == 1 {
      assert ds[1..] == [];
    } else {
      assert ds[1..][|ds[1..]| - 1] == ds[|ds| - 1];
      if remaining >= d.value {
        var rest := GreedyFrom(remaining % d.value, ds[1..]);
        GreedyWorth(remaining % d.value, ds[1..]);
        WorthIgnores(rest, d.name, remaining / d.value, ds[1..]);
        assert remaining / d.value * d.value + remaining % d.value == remaining;
      } else {
        GreedyWorth(remaining, ds[1..]);
      }
    }
  }

  /** The counts of the US greedy breakdown in closed form. */
  lemma GreedyCounts(cents: int)
    requires cents >= 0
    ensures CountOf(Greedy(cents), "dollar") == cents / 100
    ensures CountOf(Greedy(cents), "quarter") == cents % 100 / 25
    ensures CountOf(Greedy(cents), "dime") == cents % 100 % 25 / 10
    ensures CountOf(Greedy(cents), "nickel") == cents % 100 % 25 % 10 / 5
    ensures CountOf(Greedy(cents), "penny") == cents % 100 % 25 % 10 % 5
  {
    DenominationsWellFormed();
    var d := Denominations;
    assert d[1..][1..] == d[2..] && d[2..][1..] == d[3..] && d[3..][1..] == d[4..];
    var r1 := cents % 100;
    var r2 := r1 % 25;
    var r3 := r2 % 10;
    var r4 := r3 % 5;
    GreedyHead(cents, d);
    GreedyHead(r1, d[1..]);
    GreedyHead(r2, d[2..]);
    GreedyHead(r3, d[3..]);
    GreedyHead(r4, d[4..]);
  }

  /** minimumChange's breakdown sums to the change. */
  lemma GreedySumsTo(cents: int)
    requires cents >= 0
    ensures SumsTo(Greedy(cents), cents)
  {
    DenominationsWellFormed();
    GreedyWorth(cents, Denominations);
  }

  /** A denomination appears in the greedy breakdown exactly when what is left by
      then still affords it, and no count reaches the next larger denomination:
      at most 3 quarters, 2 dimes, 1 nickel and 4 pennies. */
  lemma GreedyBounds(cents: int)
    requires cents >= 0
    ensures "dollar" in Greedy(cents) <==> cents >= 100
    ensures "quarter" in Greedy(cents) <==> cents % 100 >= 25
    ensures "dime" in Greedy(cents) <==> cents % 100 % 25 >= 10
    ensures "nickel" in Greedy(cents) <==> cents % 100 % 25 % 10 >= 5
    ensures "penny" in Greedy(cents) <==> cents % 100 % 25 % 10 % 5 >= 1
    ensures CountOf(Greedy(cents), "quarter") <= 3
    ensures CountOf(Greedy(cents), "dime") <= 2
    ensures CountOf(Greedy(cents), "nickel") <= 1
    ensures CountOf(Greedy(cents), "penny") <= 4
  {
    GreedyCounts(cents);
  }

  /** The number of coins the greedy walk hands out for `cents`, in closed form. */
  function GreedyCoinCount(cents: int): int {
    cents / 100 + cents % 100 / 25 + cents % 100 % 25 / 10 + cents % 100 % 25 % 10 / 5
    + cents % 100 % 25 % 10 % 5
  }

  /** Exchange argument: any way of paying with dollars, quarters, dimes, nickels
      and pennies uses at least as many pieces as the greedy walk. Five pennies,
      two nickels, three dimes, two dimes and a nickel, or four quarters can each
      be traded for fewer pieces of the same worth; a combination that admits
      none of these trades is the greedy one. */
  lemma {:induction false} FewestPieces(d: nat, q: nat, di: nat, n: nat, p: nat)
    ensures GreedyCoinCount(100 * d + 25 * q + 10 * di + 5 * n + p) <= d + q + di + n + p
    decreases d + q + di + n + p
  {
    var c := 100 * d + 25 * q + 10 * di + 5 * n + p;
    if p >= 5 {
      FewestPieces(d, q, di, n + 1, p - 5);
      assert 100 * d + 25 * q + 10 * di + 5 * (n + 1) + (p - 5) == c;
    } else if n >= 2 {
      FewestPieces(d, q, di + 1, n - 2, p);
      assert 100 * d + 25 * q + 10 * (di + 1) + 5 * (n - 2) + p == c;
    } else if di >= 3 {
      FewestPieces(d, q + 1, di - 3, n + 1, p);
      assert 100 * d + 25 * (q + 1) + 10 * (di - 3) + 5 * (n + 1) + p == c;
    } else if di == 2 && n == 1 {
      FewestPieces(d, q + 1, 0, 0, p);
      assert 100 * d + 25 * (q + 1) + 10 * 0 + 5 * 0 + p == c;
    } else if q >= 4 {
      FewestPieces(d + 1, q - 4, di, n, p);
      assert 100 * (d + 1) + 25 * (q - 4) + 10 * di + 5 * n + p == c;
    } else {
      CanonicalCount(d, q, di, n, p);
    }
  }

  /** A combination that admits none of the trades is exactly what the greedy
      walk produces, so its piece count is the greedy count. */
  lemma CanonicalCount(d: nat, q: nat, di: nat, n: nat, p: nat)
    requires p < 5 && n < 2 && di < 3 && !(di == 2 && n == 1) && q < 4
    ensures GreedyCoinCount(100 * d + 25 * q + 10 * di + 5 * n + p) == d + q + di + n + p
  {
    var low := 10 * di + 5 * n + p;
    var c := 100 * d + 25 * q + low;
    assert low < 25;
    assert c / 100 == d && c % 100 == 25 * q + low;
    assert (25 * q + low) / 25 == q && (25 * q + low) % 25 == low;
    assert low / 10 == di && low % 10 == 5 * n + p;
    assert (5 * n + p) / 5 == n && (5 * n + p) % 5 == p;
  }

  /** The greedy breakdown uses GreedyCoinCount pieces. */
  lemma GreedyCoins(cents: int)
    requires cents >= 0
    ensures Coins(Greedy(cents), Denominations) == GreedyCoinCount(cents)
  {
    WorthUS(Greedy(cents));
    GreedyCounts(cents);
  }

  /** minimumChange hands out the fewest coins and notes of all breakdowns of
      `cents` into dollars, quarters, dimes, nickels and pennies. */
  lemma GreedyIsOptimal(cents: int, other: map<string, int>)
    requires cents >= 0
    requires forall n :: n in other ==> other[n] >= 0
    requires Worth(other, Denominations) == cents
    ensures Coins(Greedy(cents), Denominations) <= Coins(other, Denominations)
  {
    WorthUS(other);
    GreedyCoins(cents);
    assert CountOf(other, "dollar") >= 0 && CountOf(other, "quarter") >= 0 && CountOf(other, "dime") >= 0
      && CountOf(other, "nickel") >= 0 && CountOf(other, "penny") >= 0;
    FewestPieces(CountOf(other, "dollar"), CountOf(other, "quarter"), CountOf(other, "dime"),
                 CountOf(other, "nickel"), CountOf(other, "penny"));
  }

  lemma {:induction false} DistinctSuffix(ds: seq<Denomination>, i: int)
    requires DistinctNames(ds) && 0 <= i < |ds|
    ensures ds[i..][0].name !in Names(ds[i + 1..]) && DistinctNames(ds[i..])
  {
    if i > 0 {
      assert ds[1..][i - 1..] == ds[i..] && ds[1..][i..] == ds[i + 1..];
      DistinctSuffix(ds[1..], i - 1);
    }
  }

  /** One step of the greedy walk at position `i` keeps "what is chosen so far,
      plus what the walk still chooses" unchanged. */
  lemma GreedyStep(ds: seq<Denomination>, i: int, chosen: map<string, int>, remaining: int)
    requires WellFormed(ds) && 0 <= i < |ds| && chosen.Keys <= Names(ds[..i])
    ensures var d := ds[i];
      var next := if remaining >= d.value then chosen[d.name := remaining / d.value] else chosen;
      var left := if remaining >= d.value then remaining % d.value else remaining;
      next + GreedyFrom(left, ds[i + 1..]) == chosen + GreedyFrom(remaining, ds[i..])
      && next.Keys <= Names(ds[..i + 1])
  {
    var d := ds[i];
    DistinctSuffix(ds, i);
    assert ds[i..][1..] == ds[i + 1..];
    NamesAppend(ds[..i], d);
    assert ds[..i + 1] == ds[..i] + [d];
    if remaining >= d.value {
      var later := GreedyFrom(remaining % d.value, ds[i + 1..]);
      assert d.name !in later;
      assert chosen[d.name := remaining / d.value] + later == chosen + later[d.name := remaining / d.value];
    }
  }

  /** minimumChange (change.go:95-122): walks the denominations largest first and
      takes each one as often as it fits into what remains. */
  method MinimumChange(cents: int) returns (r: ChangeResult)
    ensures r.denominations == Greedy(cents)
    ensures r.total == cents
    ensures cents >= 0 ==> SumsTo(r.denominations, cents)
  {
    DenominationsWellFormed();
    var result: map<string, int> := map[];
    var remaining := cents;
    for i := 0 to |Denominations|
      invariant result + GreedyFrom(remaining, Denominations[i..]) == Greedy(cents)
      invariant result.Keys <= Names(Denominations[..i])
    {
      var denom := Denominations[i];
      GreedyStep(Denominations, i, result, remaining);
      if remaining >= denom.value {
        var count := remaining / denom.value;
        result := result[denom.name := count];
        remaining := remaining % denom.value;
      }
    }
    assert Denominations[|Denominations|..] == [];
    r := ChangeResult(result, cents);
    if cents >= 0 { GreedySumsTo(cents); }
  }

  // ---------------------------------------------------------------------------
  // Randomised breakdown (randomizeChange)
  // ---------------------------------------------------------------------------

  /** What randomizeChange has chosen so far and what is still to be handed out. */
  datatype Tally = Tally(counts: map<string, int>, remaining: int)

  /** The tally after drawing `picks[i]` pieces of denomination `i` for each of the
      first |picks| denominations (dollar, quarter, dime, nickel); a draw of zero
      leaves the denomination out. */
  function RandomPrefix(cents: int, picks: seq<int>): Tally
    requires |picks| <= 4
  {
    if picks == [] then Tally(map[], cents)
    else
      var before := RandomPrefix(cents, picks[..|picks| - 1]);
      var d := Denominations[|picks| - 1];
      var k := picks[|picks| - 1];
      if k > 0 then Tally(before.counts[d.name := k], before.remaining - k * d.value) else before
  }

  /** Draws that `rand.Intn(maxCount + 1)` can produce: each lies between 0 and the
      number of times the denomination fits into what remained before it. */
  ghost predicate ValidPicks(cents: int, picks: seq<int>) {
    |picks| <= 4
    && forall i :: 0 <= i < |picks| ==>
         0 <= picks[i] <= RandomPrefix(cents, picks[..i]).remaining / Denominations[i].value
  }

  /** The breakdown randomizeChange returns for four draws: what is left after the
      draws is paid in pennies. */
  function Randomized(cents: int, picks: seq<int>): map<string, int>
    requires |picks| == 4
  {
    var t := RandomPrefix(cents, picks);
    if t.remaining > 0 then t.counts["penny" := t.remaining] else t.counts
  }

  /** `m` is one of the breakdowns randomizeChange can return for `cents`. */
  ghost predicate IsRandomOutcome(cents: int, m: map<string, int>) {
    exists picks :: |picks| == 4 && ValidPicks(cents, picks) && Randomized(cents, picks) == m
  }

  /** A draw of at most `a / v` pieces of value `v` costs at most `a`. */
  lemma DrawFits(k: int, a: int, v: int)
    requires a >= 0 && v > 0 && 0 <= k <= a / v
    ensures k * v <= a
  {
    assert (a / v - k) * v >= 0;
    assert a == (a / v) * v + a % v;
  }

  lemma {:induction false} ValidPicksPrefix(cents: int, picks: seq<int>, j: int)
    requires ValidPicks(cents, picks) && 0 <= j <= |picks|
    ensures ValidPicks(cents, picks[..j])
  {
    forall i | 0 <= i < j ensures picks[..j][..i] == picks[..i] { }
  }

  /** The tally is sound after the draws for the first `j` denominations. */
  ghost predicate SoundTally(cents: int, t: Tally, j: int)
    requires 0 <= j <= |Denominations|
  {
    t.remaining >= 0
    && Worth(t.counts, Denominations) + t.remaining == cents
    && t.counts.Keys <= Names(Denominations[..j])
    && forall n :: n in t.counts ==> t.counts[n] >= 1
  }

  /** One draw within bounds keeps a tally sound. */
  lemma DrawKeepsSound(cents: int, before: Tally, j: int, k: int)
    requires 0 <= j < 4 && SoundTally(cents, before, j)
    requires 0 <= k <= before.remaining / Denominations[j].value
    ensures var d := Denominations[j];
      SoundTally(cents, if k > 0 then Tally(before.counts[d.name := k], before.remaining - k * d.value) else before, j + 1)
  {
    var d := Denominations[j];
    NamesAppend(Denominations[..j], d);
    TakeOneMore(Denominations, j);
    if k > 0 {
      DenominationsWellFormed();
      var after := Tally(before.counts[d.name := k], before.remaining - k * d.value);
      DrawFits(k, before.remaining, d.value);
      NameNotEarlier(Denominations, j);
      WorthInsert(before.counts, Denominations, j, k);
    }
  }

  /** Whatever the draws, nothing overdraws: the tally never goes negative, every
      chosen count is positive, and chosen plus remaining is always `cents`. */
  lemma {:induction false} RandomPrefixSound(cents: int, picks: seq<int>)
    requires cents >= 0 && ValidPicks(cents, picks)
    ensures SoundTally(cents, RandomPrefix(cents, picks), |picks|)
  {
    if picks == [] {
      WorthUS(map[]);
    } else {
      var j := |picks| - 1;
      var init := picks[..j];
      ValidPicksPrefix(cents, picks, j);
      RandomPrefixSound(cents, init);
      assert picks[..j] == init;
      DrawKeepsSound(cents, RandomPrefix(cents, init), j, picks[j]);
    }
  }

  /** Every breakdown randomizeChange can return sums to the change, with only
      known denominations and only positive counts. */
  lemma RandomizedSumsTo(cents: int, picks: seq<int>)
    requires cents >= 0 && |picks| == 4 && ValidPicks(cents, picks)
    ensures SumsTo(Randomized(cents, picks), cents)
  {
    DenominationsWellFormed();
    RandomPrefixSound(cents, picks);
    var t := RandomPrefix(cents, picks);
    NamesAppend(Denominations[..4], Denominations[4]);
    assert Denominations[..4] + [Denominations[4]] == Denominations;
    if t.remaining > 0 {
      NameNotEarlier(Denominations, 4);
      WorthInsert(t.counts, Denominations, 4, t.remaining);
    }
  }

  /** One more draw extends a valid sequence of draws; the tally takes the drawn
      denomination only when the draw is positive. */
  lemma RandomStep(cents: int, picks: seq<int>, k: int)
    requires cents >= 0 && ValidPicks(cents, picks) && |picks| < 4
    requires 0 <= k <= RandomPrefix(cents, picks).remaining / Denominations[|picks|].value
    ensures ValidPicks(cents, picks + [k])
    ensures var t := RandomPrefix(cents, picks); var d := Denominations[|picks|];
      RandomPrefix(cents, picks + [k])
        == if k > 0 then Tally(t.counts[d.name := k], t.remaining - k * d.value) else t
  {
    var next := picks + [k];
    assert next[..|picks|] == picks;
    forall i | 0 <= i < |next|
      ensures 0 <= next[i] <= RandomPrefix(cents, next[..i]).remaining / Denominations[i].value
    {
      if i < |picks| {
        assert next[..i] == picks[..i] && next[i] == picks[i];
      }
    }
  }

  /** randomizeChange (change.go:125-164): for dollar, quarter, dime and nickel in
      turn it draws a count between 0 and how many fit, then pays the rest in
      pennies. The draw of `rand.Intn` is a nondeterministic choice. */
  method RandomizeChange(cents: int) returns (r: ChangeResult, err: Option<string>)
    requires cents >= 0
    ensures IsRandomOutcome(cents, r.denominations)
    ensures SumsTo(r.denominations, cents)
    ensures r.total == cents && err == None
  {
    var result: map<string, int> := map[];
    var remaining := cents;
    ghost var picks: seq<int> := [];
    for i := 0 to 4
      invariant |picks| == i && ValidPicks(cents, picks)
      invariant RandomPrefix(cents, picks) == Tally(result, remaining)
    {
      RandomPrefixSound(cents, picks);
      var denom := Denominations[i];
      var maxCount := remaining / denom.value;
      var randomCount := 0;
      if maxCount > 0 {
        randomCount :| 0 <= randomCount <= maxCount;
        if randomCount > 0 {
          result := result[denom.name := randomCount];
          remaining := remaining - randomCount * denom.value;
        }
      }
      RandomStep(cents, picks, randomCount);
      picks := picks + [randomCount];
    }
    if remaining > 0 {
      result := result["penny" := remaining];
    }
    r := ChangeResult(result, cents);
    err := None;
    assert Randomized(cents, picks) == result;
    RandomizedSumsTo(cents, picks);
  }

  /** The sum of draw times value over the draws made so far. */
  function PickedWorth(picks: seq<int>): int
    requires |picks| <= 4
  {
    if picks == [] then 0
    else PickedWorth(picks[..|picks| - 1]) + picks[|picks| - 1] * Denominations[|picks| - 1].value
  }

  lemma DistinctAt(i: int, j: int)
    requires 0 <= i < |Denominations| && 0 <= j < |Denominations| && i != j
    ensures Denominations[i].name != Denominations[j].name
  {
    DenominationsWellFormed();
    if i < j {
      NameNotEarlier(Denominations, j);
      NameAt(Denominations[..j], i);
    } else {
      NameNotEarlier(Denominations, i);
      NameAt(Denominations[..i], j);
    }
  }

  /** After non-negative draws, each drawn denomination's count is its draw (zero
      when left out), later ones are absent, and the remainder is what the draws
      have not covered. */
  lemma {:induction false} RandomPrefixCounts(cents: int, picks: seq<int>)
    requires |picks| <= 4 && forall i :: 0 <= i < |picks| ==> picks[i] >= 0
    ensures var t := RandomPrefix(cents, picks);
      (forall i :: 0 <= i < |picks| ==> CountOf(t.counts, Denominations[i].name) == picks[i])
      && (forall i :: |picks| <= i < |Denominations| ==> Denominations[i].name !in t.counts)
      && t.remaining == cents - PickedWorth(picks)
  {
    if picks != [] {
      var j := |picks| - 1;
      var init := picks[..j];
      RandomPrefixCounts(cents, init);
      var before := RandomPrefix(cents, init);
      var t := RandomPrefix(cents, picks);
      forall i | 0 <= i < |picks| ensures CountOf(t.counts, Denominations[i].name) == picks[i] {
        if i < j {
          DistinctAt(i, j);
          assert init[i] == picks[i];
        }
      }
      forall i | |picks| <= i < |Denominations| ensures Denominations[i].name !in t.counts {
        DistinctAt(i, j);
      }
    }
  }

  /** The draws that reproduce the greedy walk: as many of each as fits. */
  function GreedyPicks(cents: int): (picks: seq<int>)
    ensures |picks| == 4
  {
    [cents / 100, cents % 100 / 25, cents % 100 % 25 / 10, cents % 100 % 25 % 10 / 5]
  }

  lemma PickedWorthGreedy(cents: int)
    requires cents >= 0
    ensures var picks := GreedyPicks(cents);
      PickedWorth(picks[..0]) == 0
      && PickedWorth(picks[..1]) == cents - cents % 100
      && PickedWorth(picks[..2]) == cents - cents % 100 % 25
      && PickedWorth(picks[..3]) == cents - cents % 100 % 25 % 10
      && PickedWorth(picks) == cents - cents % 100 % 25 % 10 % 5
  {
    var picks := GreedyPicks(cents);
    assert picks[..4] == picks;
    assert picks[..4][..3] == picks[..3] && picks[..3][..2] == picks[..2];
    assert picks[..2][..1] == picks[..1] && picks[..1][..0] == [];
  }

  lemma GreedyPicksValid(cents: int)
    requires cents >= 0
    ensures ValidPicks(cents, GreedyPicks(cents))
    ensures RandomPrefix(cents, GreedyPicks(cents)).remaining == cents % 100 % 25 % 10 % 5
  {
    var picks := GreedyPicks(cents);
    PickedWorthGreedy(cents);
    forall i | 0 <= i < 4
      ensures 0 <= picks[i] <= RandomPrefix(cents, picks[..i]).remaining / Denominations[i].value
    {
      RandomPrefixCounts(cents, picks[..i]);
    }
    RandomPrefixCounts(cents, picks);
    assert picks[..4] == picks;
  }

  /** The greedy breakdown is itself one of randomizeChange's possible results (the
      draws c/100, c%100/25, ... are all allowed), so a randomised result can equal
      the greedy one. */
  lemma GreedyIsRandomOutcome(cents: int)
    requires cents >= 0
    ensures IsRandomOutcome(cents, Greedy(cents))
  {
    var picks := GreedyPicks(cents);
    GreedyPicksValid(cents);
    RandomPrefixCounts(cents, picks);
    RandomizedSumsTo(cents, picks);
    GreedySumsTo(cents);
    GreedyCounts(cents);
    DenominationsWellFormed();
    var m := Randomized(cents, picks);
    assert CountOf(m, "dollar") == picks[0] by { DistinctAt(0, 4); }
    assert CountOf(m, "quarter") == picks[1] by { DistinctAt(1, 4); }
    assert CountOf(m, "dime") == picks[2] by { DistinctAt(2, 4); }
    assert CountOf(m, "nickel") == picks[3] by { DistinctAt(3, 4); }
    assert CountOf(m, "penny") == cents % 100 % 25 % 10 % 5;
    SameCounts(m, Greedy(cents));
  }

  // ---------------------------------------------------------------------------
  // Dispatch (CalculateChange)
  // ---------------------------------------------------------------------------

  /** Which breakdown CalculateChange hands out for a non-negative change: none for
      zero, a randomised one when the change is a multiple of the divisor, the
      greedy one otherwise. */
  ghost predicate ChosenBreakdown(m: map<string, int>, change: int, divisor: int)
    requires divisor != 0
  {
    if change == 0 then m == map[]
    else if change % divisor == 0 then IsRandomOutcome(change, m)
    else m == Greedy(change)
  }

  /** CalculateChange (change.go:40-92) with the divisor the caller passes. A
      negative change is an error; zero change is the empty breakdown, decided
      before any divisibility test. */
  method CalculateChange(request: ChangeRequest, divisor: int) returns (r: Result<ChangeResult, string>)
    requires divisor > 0
    ensures r.Failure? <==> request.amountPaid < request.amountOwed
    ensures r.Failure? ==> r.error == NegativeChangeMessage
    ensures r.Success? ==> r.value.total == request.amountPaid - request.amountOwed
    ensures r.Success? ==> SumsTo(r.value.denominations, r.value.total)
    ensures r.Success? ==> ChosenBreakdown(r.value.denominations, r.value.total, divisor)
  {
    var change := request.amountPaid - request.amountOwed;
    if change < 0 {
      return Failure(NegativeChangeMessage);
    }
    if change == 0 {
      WorthUS(map[]);
      return Success(ChangeResult(map[], 0));
    }
    var changeCents := change;
    var shouldRandomize := changeCents % divisor == 0;
    if shouldRandomize {
      // randomizeChange's error is always nil
      var result, _ := RandomizeChange(changeCents);
      return Success(result);
    }
    var result := MinimumChange(changeCents);
    return Success(result);
  }

  /** CalculateChange as written: lines 59-61 redeclare `divisor`, `country` and
      `specialCases` (3, "US", none) in the function's outermost block, which Go
      rejects at compile time. This member models the reading in which the local
      declarations win, so the divisibility test always uses 3 whatever the
      caller passes. */
  method CalculateChangeAsWritten(request: ChangeRequest, divisor: int, country: string, specialCases: seq<string>)
    returns (r: Result<ChangeResult, string>)
    ensures r.Failure? <==> request.amountPaid < request.amountOwed
    ensures r.Failure? ==> r.error == NegativeChangeMessage
    ensures r.Success? ==> r.value.total == request.amountPaid - request.amountOwed
    ensures r.Success? ==> SumsTo(r.value.denominations, r.value.total)
    ensures r.Success? ==> ChosenBreakdown(r.value.denominations, r.value.total, 3)
  {
    r := CalculateChange(request, 3);
  }

  /** With divisor 5 and 99 cents of change (change_test.go:40-47 expects the
      greedy result), the reading in which the local 3 wins may answer with 99
      pennies, because 99 is a multiple of 3; with the caller's divisor only the
      greedy breakdown is allowed. */
  lemma ShadowedDivisorCounterexample()
    ensures ChosenBreakdown(map["penny" := 99], 99, 3)
    ensures !ChosenBreakdown(map["penny" := 99], 99, 5)
  {
    var picks := [0, 0, 0, 0];
    assert picks[..4] == picks;
    assert picks[..1][..0] == [] && picks[..2][..1] == picks[..1];
    assert picks[..3][..2] == picks[..2] && picks[..4][..3] == picks[..3];
    assert RandomPrefix(99, picks[..0]) == Tally(map[], 99);
    assert RandomPrefix(99, picks[..1]) == Tally(map[], 99);
    assert RandomPrefix(99, picks[..2]) == Tally(map[], 99);
    assert RandomPrefix(99, picks[..3]) == Tally(map[], 99);
    assert RandomPrefix(99, picks) == Tally(map[], 99);
    assert ValidPicks(99, picks);
    assert Randomized(99, picks) == map["penny" := 99];
    GreedyCounts(99);
    assert "quarter" in Greedy(99);
  }

  // ---------------------------------------------------------------------------
  // Formatting (FormatResult)
  // ---------------------------------------------------------------------------

  function DigitChar(d: int): char
    requires 0 <= d < 10
  {
    ('0' as int + d) as char
  }

  /** Decimal text of a count, as `%d` prints it: digits only, with no leading
      zero except for zero itself. */
  function NatToString(n: nat): (s: string)
    ensures |s| >= 1
    ensures forall i :: 0 <= i < |s| ==> '0' <= s[i] <= '9'
    ensures s[0] == '0' <==> n == 0
    ensures n == 0 ==> s == "0"
  {
    if n < 10 then [DigitChar(n)] else NatToString(n / 10) + [DigitChar(n % 10)]
  }

  /** Reads decimal digits back into a number. */
  function StringToNat(s: string): nat
    requires forall i :: 0 <= i < |s| ==> '0' <= s[i] <= '9'
  {
    if s == [] then 0 else 10 * StringToNat(s[..|s| - 1]) + (s[|s| - 1] as int - '0' as int)
  }

  /** Printing a count and reading it back gives the count. */
  lemma {:induction false} NatToStringRoundTrip(n: nat)
    ensures StringToNat(NatToString(n)) == n
  {
    var s := NatToString(n);
    if n >= 10 {
      NatToStringRoundTrip(n / 10);
      assert s[..|s| - 1] == NatToString(n / 10);
      assert s[|s| - 1] as int - '0' as int == n % 10;
    } else {
      assert s[..0] == [];
    }
  }

  /** What `%d %s%s` prints for `count` pieces called `name`: the count, a space,
      the bare name, and "s" unless the count is exactly one. */
  function Piece(count: nat, name: string): string {
    NatToString(count) + " " + name + (if count == 1 then "" else "s")
  }

  /** The text for `count` pieces of the denomination at position `i`: a comma in
      front for every position after the first (whether or not anything was
      printed before it), then the piece. */
  function Entry(i: int, count: nat): string
    requires 0 <= i < |Denominations|
  {
    (if i > 0 then "," else "") + Piece(count, Denominations[i].name)
  }

  /** Whether the denomination at position `i` is printed at all. */
  predicate Printed(m: map<string, int>, i: int)
    requires 0 <= i < |Denominations|
  {
    Denominations[i].name in m && m[Denominations[i].name] > 0
  }

  /** The text for the first `k` denominations in order. */
  function EntriesUpTo(m: map<string, int>, k: int): string
    requires 0 <= k <= |Denominations|
  {
    if k == 0 then ""
    else EntriesUpTo(m, k - 1)
         + (if Printed(m, k - 1) then Entry(k - 1, m[Denominations[k - 1].name]) else "")
  }

  /** What FormatResult prints for a breakdown. */
  function Formatted(m: map<string, int>): string {
    if |m| == 0 then "" else EntriesUpTo(m, |Denominations|)
  }

  /** FormatResult (change.go:167-189): walks dollar, quarter, dime, nickel, penny
      (the order of denomOrder, which lists the same names as the denomination
      table) and appends one entry per positive count. */
  method FormatResult(result: ChangeResult) returns (formatted: string)
    ensures formatted == Formatted(result.denominations)
  {
    if |result.denominations| == 0 {
      return "";
    }
    formatted := "";
    for i := 0 to |Denominations|
      invariant formatted == EntriesUpTo(result.denominations, i)
    {
      var name := Denominations[i].name;
      if name in result.denominations && result.denominations[name] > 0 {
        var count := result.denominations[name];
        ghost var before := formatted;
        if i > 0 {
          formatted := formatted + ",";
        }
        var plural := "s";
        if count == 1 {
          plural := "";
        }
        var piece := NatToString(count) + " " + name + plural;
        formatted := formatted + piece;
        assert piece == Piece(count, name);
        assert formatted == before + Entry(i, count);
      }
    }
  }

  /** Nothing is printed exactly when no denomination has a positive count. */
  lemma {:induction false} EntriesEmpty(m: map<string, int>, k: int)
    requires 0 <= k <= |Denominations|
    ensures EntriesUpTo(m, k) == "" <==> forall i :: 0 <= i < k ==> !Printed(m, i)
  {
    if k > 0 {
      EntriesEmpty(m, k - 1);
    }
  }

  /** Once the dollar position is passed, everything appended starts with a comma:
      the text is the dollar entry (if any) followed by comma-led entries. */
  lemma {:induction false} EntriesAfterDollar(m: map<string, int>, k: int)
    requires 1 <= k <= |Denominations|
    ensures var head := EntriesUpTo(m, 1); var all := EntriesUpTo(m, k);
      |head| <= |all| && all[..|head|] == head
      && (|all| > |head| ==> all[|head|] == ',')
  {
    if k > 1 {
      EntriesAfterDollar(m, k - 1);
      var before := EntriesUpTo(m, k - 1);
      var head := EntriesUpTo(m, 1);
      var all := EntriesUpTo(m, k);
      assert all[..|before|] == before;
      if |before| == |head| && |all| > |head| {
        assert Printed(m, k - 1);
        assert all[|head|] == Entry(k - 1, m[Denominations[k - 1].name])[0];
      }
    }
  }

  /** An entry starts with a comma exactly when its denomination is not the
      first in the order, and ends in "s" exactly when its count is not one (no
      denomination name ends in "s" by itself). */
  lemma EntryShape(i: int, count: nat)
    requires 0 <= i < |Denominations|
    ensures (Entry(i, count)[0] == ',') <==> i > 0
    ensures (Entry(i, count)[|Entry(i, count)| - 1] == 's') <==> count != 1
  {
    var digits := NatToString(count);
    var name := Denominations[i].name;
    assert name[|name| - 1] != 's';
    if i == 0 {
      assert Entry(i, count)[0] == digits[0];
    }
  }

  /** The printed text is empty exactly when no denomination has a positive count,
      and otherwise starts with a comma exactly when there are no dollars. */
  lemma FormattedShape(m: map<string, int>)
    ensures Formatted(m) == "" <==> forall i :: 0 <= i < |Denominations| ==> !Printed(m, i)
    ensures Formatted(m) != "" ==> (Formatted(m)[0] == ',' <==> !Printed(m, 0))
  {
    EntriesEmpty(m, |Denominations|);
    if |m| == 0 {
      assert forall i :: 0 <= i < |Denominations| ==> !Printed(m, i);
    } else {
      EntriesAfterDollar(m, |Denominations|);
      if Printed(m, 0) {
        var s := NatToString(m["dollar"]);
        assert EntriesUpTo(m, 1) == s + " " + "dollar" + (if m["dollar"] == 1 then "" else "s");
        assert EntriesUpTo(m, 1)[0] == s[0];
      }
    }
  }

  lemma GreedyExample()
    ensures Greedy(87) == map["quarter" := 3, "dime" := 1, "penny" := 2]
  {
    var g := Greedy(87);
    GreedyCounts(87);
    GreedyBounds(87);
    DenominationsWellFormed();
    assert "dollar" !in g && "nickel" !in g;
    assert g.Keys == {"quarter", "dime", "penny"};
    assert g["quarter"] == 3 && g["dime"] == 1 && g["penny"] == 2;
  }

  /** The entries printed for a breakdown with quarters, dimes and pennies but
      no dollars or nickels. */
  lemma EntriesWithoutDollarsOrNickels(m: map<string, int>)
    requires "dollar" !in m && "nickel" !in m
    requires "quarter" in m && "dime" in m && "penny" in m
    requires m["quarter"] > 0 && m["dime"] > 0 && m["penny"] > 0
    ensures Formatted(m) == Entry(1, m["quarter"]) + Entry(2, m["dime"]) + Entry(4, m["penny"])
  {
    assert |m| > 0 by {
      assert "quarter" in m.Keys;
    }
    assert Denominations[0].name == "dollar" && Denominations[1].name == "quarter";
    assert Denominations[2].name == "dime" && Denominations[3].name == "nickel";
    assert Denominations[4].name == "penny";
    var q, d, p := Entry(1, m["quarter"]), Entry(2, m["dime"]), Entry(4, m["penny"]);
    assert EntriesUpTo(m, 1) == "";
    assert EntriesUpTo(m, 2) == q;
    assert EntriesUpTo(m, 3) == q + d;
    assert EntriesUpTo(m, 4) == q + d;
  }

  lemma QuarterEntryExample()
    ensures Entry(1, 3) == ",3 quarters"
  {
    assert NatToString(3) == "3";
  }

  lemma DimeEntryExample()
    ensures Entry(2, 1) == ",1 dime"
  {
    assert NatToString(1) == "1";
  }

  lemma PennyEntryExample()
    ensures Entry(4, 2) == ",2 pennys"
  {
    assert NatToString(2) == "2";
  }

  /** 87 cents is printed with a leading comma and "pennys":
      ",3 quarters,1 dime,2 pennys". */
  lemma FormattedExample()
    ensures Formatted(map["quarter" := 3, "dime" := 1, "penny" := 2]) == ",3 quarters,1 dime,2 pennys"
  {
    var m := map["quarter" := 3, "dime" := 1, "penny" := 2];
    EntriesWithoutDollarsOrNickels(m);
    QuarterEntryExample();
    DimeEntryExample();
    PennyEntryExample();
  }
}
