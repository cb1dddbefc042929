/** The bond comparison tool (src/components/BondComparison.tsx): the edited list of bonds,
    the duration results of each, the radar chart's normalised scores and the insight lines.
    The list is the component's `bonds` state; each handler computes the next list with a
    spread, a `filter` or a `map`, and the class `BondList` installs it. */
module BondComparison {
  import opened Duration
  import opened DurationAnalysis

  /** A bond of the list: an identifier, a display name and the engine's parameters. */
  datatype Bond = Bond(id: string, name: string, params: BondParams)

  /** The keys of `BondParams` an edit can write. */
  datatype ParamKey = FaceValue | CouponRate | YearsToMaturity | Ytm | Frequency

  /** An `updateBond(id, field, value)` call: the field 'name' with its text, or a parameter
      key with its number. */
  datatype Edit = Rename(newName: string) | SetParam(key: ParamKey, value: real)

  /** The three bonds the tool starts with. */
  const DefaultBonds: seq<Bond> := [
    Bond("1", "Short-Term (5Y)", BondParams(1000.0, 0.04, 5.0, 0.045, 2.0)),
    Bond("2", "Medium-Term (10Y)", BondParams(1000.0, 0.05, 10.0, 0.045, 2.0)),
    Bond("3", "Long-Term (30Y)", BondParams(1000.0, 0.06, 30.0, 0.045, 2.0))
  ]

  /** The parameters of a bond added with the "Add Bond" button. */
  const NewBondParams: BondParams := BondParams(1000.0, 0.05, 10.0, 0.05, 2.0)

  /** The "Add Bond" card is shown only while fewer than five bonds are listed. */
  const MaxBonds: nat := 5

  // ---------------------------------------------------------------------------------------
  // Bond names: `Bond ${bonds.length + 1}`

  function DigitChar(d: nat): (c: char)
    requires d < 10
    ensures '0' <= c <= '9'
  {
    ['0', '1', '2', '3', '4', '5', '6', '7', '8', '9'][d]
  }

  function DigitValue(c: char): nat
    requires '0' <= c <= '9'
  {
    (c - '0') as nat
  }

  predicate AllDigits(s: string)
  {
    forall i :: 0 <= i < |s| ==> '0' <= s[i] <= '9'
  }

  /** The decimal numeral of n, without leading zeros. */
  function NatToString(n: nat): (s: string)
    ensures |s| >= 1 && AllDigits(s)
    ensures |s| > 1 ==> s[0] != '0'
  {
    if n < 10 then [DigitChar(n)] else NatToString(n / 10) + [DigitChar(n % 10)]
  }

  /** The value of a decimal numeral. */
  function NumeralValue(s: string): nat
    requires AllDigits(s)
  {
    if s == [] then 0 else NumeralValue(s[..|s| - 1]) * 10 + DigitValue(s[|s| - 1])
  }

  /** Reading back the numeral of n gives n, so distinct counts give distinct names. */
  lemma {:induction false} NumeralRoundTrip(n: nat)
    ensures NumeralValue(NatToString(n)) == n
  {
    var s := NatToString(n);
    if n >= 10 {
      NumeralRoundTrip(n / 10);
      assert s[..|s| - 1] == NatToString(n / 10);
      assert DigitValue(DigitChar(n % 10)) == n % 10;
    } else {
      assert DigitValue(DigitChar(n)) == n;
    }
  }

  /** The name of the bond added to a list of `count` bonds. */
  function NewBondName(count: nat): (name: string)
    ensures |name| > 5 && name[..5] == "Bond "
    ensures AllDigits(name[5..]) && NumeralValue(name[5..]) == count + 1
  {
    NumeralRoundTrip(count + 1);
    assert ("Bond " + NatToString(count + 1))[5..] == NatToString(count + 1);
    "Bond " + NatToString(count + 1)
  }

  // ---------------------------------------------------------------------------------------
  // The three list edits

  function IdsOf(bonds: seq<Bond>): (ids: seq<string>)
    ensures |ids| == |bonds| && forall i :: 0 <= i < |bonds| ==> ids[i] == bonds[i].id
  {
    if bonds == [] then [] else IdsOf(bonds[..|bonds| - 1]) + [bonds[|bonds| - 1].id]
  }

  /** No two bonds share an identifier (the initial ids are '1', '2' and '3', and each added
      bond takes a fresh one). */
  predicate UniqueIds(bonds: seq<Bond>)
  {
    forall i, j :: 0 <= i < j < |bonds| ==> bonds[i].id != bonds[j].id
  }

  /** `addBond`: the list with one bond appended. */
  /** `bonds.length < 5`: whether the "Add Bond" card is shown. */
  predicate CanAdd(bonds: seq<Bond>)
  {
    |bonds| < MaxBonds
  }

  /** Adding through the card never lists more than five bonds, and from five bonds the card
      is gone. */
  lemma AddWithinLimit(bonds: seq<Bond>, newId: string)
    requires |bonds| <= MaxBonds
    ensures CanAdd(bonds) <==> |WithBondAdded(bonds, newId)| <= MaxBonds
  {
  }

  function WithBondAdded(bonds: seq<Bond>, newId: string): (r: seq<Bond>)
    ensures |r| == |bonds| + 1 && r[..|bonds|] == bonds
    ensures r[|bonds|].id == newId && r[|bonds|].params == NewBondParams
    ensures r[|bonds|].name == NewBondName(|bonds|)
  {
    var r := bonds + [Bond(newId, NewBondName(|bonds|), NewBondParams)];
    assert r[..|bonds|] == bonds;
    r
  }

  /** `bonds.filter(b => b.id !== id)`. */
  function Without(bonds: seq<Bond>, id: string): (r: seq<Bond>)
    ensures |r| <= |bonds|
    ensures forall b :: b in r <==> b in bonds && b.id != id
  {
    if bonds == [] then []
    else
      var rest := Without(bonds[1..], id);
      assert forall b :: b in bonds <==> b == bonds[0] || b in bonds[1..];
      if bonds[0].id == id then rest else [bonds[0]] + rest
  }

  /** `removeBond`: nothing changes while one bond is left; otherwise the bonds with that id
      are dropped. */
  function WithBondRemoved(bonds: seq<Bond>, id: string): (r: seq<Bond>)
    ensures |bonds| <= 1 ==> r == bonds
    ensures |bonds| > 1 ==> forall b :: b in r <==> b in bonds && b.id != id
  {
    if |bonds| > 1 then Without(bonds, id) else bonds
  }

  /** A list without the identifier is left as it is. */
  lemma {:induction false} WithoutAbsent(bonds: seq<Bond>, id: string)
    requires forall i :: 0 <= i < |bonds| ==> bonds[i].id != id
    ensures Without(bonds, id) == bonds
  {
    if bonds != [] {
      WithoutAbsent(bonds[1..], id);
    }
  }

  /** With unique identifiers, removing the id of the bond at index i drops exactly that
      bond and keeps the others in order. */
  lemma {:induction false} WithoutAt(bonds: seq<Bond>, i: nat)
    requires UniqueIds(bonds) && i < |bonds|
    ensures Without(bonds, bonds[i].id) == bonds[..i] + bonds[i + 1..]
  {
    var id := bonds[i].id;
    if i == 0 {
      WithoutAbsent(bonds[1..], id);
    } else {
      WithoutAt(bonds[1..], i - 1);
      assert bonds[1..][i - 1].id == id;
      assert bonds[1..][..i - 1] + bonds[1..][i..] == bonds[1..i] + bonds[i + 1..];
      assert bonds[..i] == [bonds[0]] + bonds[1..i];
    }
  }

  /** The remove button never empties a list of uniquely identified bonds. */
  lemma RemoveKeepsOne(bonds: seq<Bond>, id: string)
    requires |bonds| >= 1 && UniqueIds(bonds)
    ensures |WithBondRemoved(bonds, id)| >= 1
    ensures |bonds| > 1 ==> |WithBondRemoved(bonds, id)| >= |bonds| - 1
  {
    if |bonds| > 1 {
      if i :| 0 <= i < |bonds| && bonds[i].id == id {
        WithoutAt(bonds, i);
      } else {
        WithoutAbsent(bonds, id);
      }
    }
  }

  /** The value of a parameter key. */
  function ParamOf(p: BondParams, key: ParamKey): real
  {
    match key
    case FaceValue => p.faceValue
    case CouponRate => p.couponRate
    case YearsToMaturity => p.yearsToMaturity
    case Ytm => p.ytm
    case Frequency => p.frequency
  }

  /** `{ ...params, [field]: value }`: the key takes the value and every other key keeps its
      own. */
  function WithParam(p: BondParams, key: ParamKey, value: real): (r: BondParams)
    ensures ParamOf(r, key) == value
    ensures forall k :: k != key ==> ParamOf(r, k) == ParamOf(p, k)
  {
    match key
    case FaceValue => p.(faceValue := value)
    case CouponRate => p.(couponRate := value)
    case YearsToMaturity => p.(yearsToMaturity := value)
    case Ytm => p.(ytm := value)
    case Frequency => p.(frequency := value)
  }

  /** The bond after an edit: a rename changes the name only, a parameter edit one key of the
      parameters only; the identifier never changes. */
  function Apply(b: Bond, e: Edit): (r: Bond)
    ensures r.id == b.id
    ensures e.Rename? ==> r.name == e.newName && r.params == b.params
    ensures e.SetParam? ==> r.name == b.name && ParamOf(r.params, e.key) == e.value
    ensures e.SetParam? ==> forall k :: k != e.key ==> ParamOf(r.params, k) == ParamOf(b.params, k)
  {
    match e
    case Rename(newName) => b.(name := newName)
    case SetParam(key, value) => b.(params := WithParam(b.params, key, value))
  }

  /** `updateBond`: the bonds with that id take the edit, every other bond is unchanged. */
  function WithBondUpdated(bonds: seq<Bond>, id: string, e: Edit): (r: seq<Bond>)
    ensures |r| == |bonds|
    ensures forall i :: 0 <= i < |bonds| && bonds[i].id != id ==> r[i] == bonds[i]
    ensures forall i :: 0 <= i < |bonds| && bonds[i].id == id ==> r[i] == Apply(bonds[i], e)
    ensures IdsOf(r) == IdsOf(bonds)
  {
    var r := seq(|bonds|, i requires 0 <= i < |bonds| => if bonds[i].id == id then Apply(bonds[i], e) else bonds[i]);
    assert IdsOf(r) == IdsOf(bonds);
    r
  }

  /** Adding a bond under a fresh identifier, removing and updating keep the identifiers
      unique. */
  lemma EditsKeepIdsUnique(bonds: seq<Bond>, newId: string, id: string, e: Edit)
    requires UniqueIds(bonds)
    ensures newId !in IdsOf(bonds) ==> UniqueIds(WithBondAdded(bonds, newId))
    ensures UniqueIds(WithBondRemoved(bonds, id))
    ensures UniqueIds(WithBondUpdated(bonds, id, e))
  {
    var ids := IdsOf(bonds);
    if newId !in ids {
      var r := WithBondAdded(bonds, newId);
      forall i, j | 0 <= i < j < |r|
        ensures r[i].id != r[j].id
      {
        if j == |bonds| {
          assert r[i].id == ids[i];
        } else {
          assert r[i] == bonds[i] && r[j] == bonds[j];
        }
      }
    }
    WithoutUnique(bonds, id);
    var u := WithBondUpdated(bonds, id, e);
    assert forall i :: 0 <= i < |u| ==> u[i].id == IdsOf(u)[i];
  }

  /** Filtering keeps the identifiers unique. */
  lemma {:induction false} WithoutUnique(bonds: seq<Bond>, id: string)
    requires UniqueIds(bonds)
    ensures UniqueIds(Without(bonds, id))
  {
    if bonds != [] {
      var rest := Without(bonds[1..], id);
      WithoutUnique(bonds[1..], id);
      if bonds[0].id != id {
        var r := [bonds[0]] + rest;
        forall j | 0 < j < |r|
          ensures r[0].id != r[j].id
        {
          assert r[j] in rest;
          assert r[j] in bonds[1..];
        }
      }
    }
  }

  /** The component's state: the list of bonds, edited through the three handlers. */
  class BondList {
    var bonds: seq<Bond>

    /** Identifiers are unique and at least one bond is listed. */
    predicate Valid()
      reads this
    {
      |bonds| >= 1 && UniqueIds(bonds)
    }

    constructor()
      ensures bonds == DefaultBonds && Valid()
    {
      bonds := DefaultBonds;
    }

    /** `addBond`, with the identifier `String(Date.now())` passed in. */
    method AddBond(newId: string)
      modifies this
      ensures bonds == WithBondAdded(old(bonds), newId)
      ensures old(Valid()) && newId !in IdsOf(old(bonds)) ==> Valid()
    {
      if Valid() {
        EditsKeepIdsUnique(bonds, newId, newId, Rename(""));
      }
      bonds := WithBondAdded(bonds, newId);
    }

    /** `removeBond`. */
    method RemoveBond(id: string)
      modifies this
      ensures bonds == WithBondRemoved(old(bonds), id)
      ensures old(Valid()) ==> Valid()
    {
      if Valid() {
        RemoveKeepsOne(bonds, id);
        EditsKeepIdsUnique(bonds, id, id, Rename(""));
      }
      bonds := WithBondRemoved(bonds, id);
    }

    /** `updateBond`. */
    method UpdateBond(id: string, e: Edit)
      modifies this
      ensures bonds == WithBondUpdated(old(bonds), id, e)
      ensures old(Valid()) ==> Valid()
    {
      if Valid() {
        EditsKeepIdsUnique(bonds, id, id, e);
      }
      bonds := WithBondUpdated(bonds, id, e);
    }
  }

  // ---------------------------------------------------------------------------------------
  // Results, radar scores and insights

  function ParamsOf(bonds: seq<Bond>): (ps: seq<BondParams>)
    ensures |ps| == |bonds| && forall i :: 0 <= i < |bonds| ==> ps[i] == bonds[i].params
  {
    if bonds == [] then [] else ParamsOf(bonds[..|bonds| - 1]) + [bonds[|bonds| - 1].params]
  }

  /** One entry of `results`: the bond with its duration results. */
  datatype BondResult = BondResult(bond: Bond, results: DurationResults)

  /** `results`: one entry per bond, in the list's order, each holding `calculateDuration`
      of the bond's parameters. */
  function ResultsOf(bonds: seq<Bond>): (rs: seq<BondResult>)
    requires AllPriceable(ParamsOf(bonds))
    ensures |rs| == |bonds|
    ensures forall i :: 0 <= i < |bonds| ==> rs[i].bond == bonds[i]
    ensures forall i :: 0 <= i < |bonds| ==> rs[i].results == Results(bonds[i].params)
  {
    var compared := CompareBonds(ParamsOf(bonds));
    seq(|bonds|, i requires 0 <= i < |bonds| => BondResult(bonds[i], compared[i]))
  }

  /** `Math.max(...xs)` on a non-empty list. */
  function MaxOf(xs: seq<real>): (m: real)
    requires xs != []
    ensures forall i :: 0 <= i < |xs| ==> xs[i] <= m
    ensures exists i :: 0 <= i < |xs| && xs[i] == m
  {
    if |xs| == 1 then xs[0]
    else
      var m := MaxOf(xs[..|xs| - 1]);
      assert forall i :: 0 <= i < |xs| - 1 ==> xs[..|xs| - 1][i] == xs[i];
      if xs[|xs| - 1] > m then xs[|xs| - 1] else m
  }

  /** `Math.min(...xs)` on a non-empty list. */
  function MinOf(xs: seq<real>): (m: real)
    requires xs != []
    ensures forall i :: 0 <= i < |xs| ==> m <= xs[i]
    ensures exists i :: 0 <= i < |xs| && xs[i] == m
  {
    if |xs| == 1 then xs[0]
    else
      var m := MinOf(xs[..|xs| - 1]);
      assert forall i :: 0 <= i < |xs| - 1 ==> xs[..|xs| - 1][i] == xs[i];
      if xs[|xs| - 1] < m then xs[|xs| - 1] else m
  }

  /** One radar axis: each value as a percentage of the largest. */
  function Normalised(xs: seq<real>): (r: seq<real>)
    requires xs != [] && MaxOf(xs) != 0.0
    ensures |r| == |xs|
  {
    seq(|xs|, i requires 0 <= i < |xs| => xs[i] / MaxOf(xs) * 100.0)
  }

  /** With a positive maximum, the largest value scores exactly 100, every non-negative value
      scores between 0 and 100, and the scores keep the values' order. */
  lemma NormalisedBounds(xs: seq<real>)
    requires xs != [] && MaxOf(xs) > 0.0
    ensures var r := Normalised(xs);
      && (forall i :: 0 <= i < |xs| && xs[i] == MaxOf(xs) ==> r[i] == 100.0)
      && (forall i :: 0 <= i < |xs| && xs[i] >= 0.0 ==> 0.0 <= r[i] <= 100.0)
      && (forall i, j :: 0 <= i < |xs| && 0 <= j < |xs| ==> (xs[i] <= xs[j] <==> r[i] <= r[j]))
  {
    var m := MaxOf(xs);
    var r := Normalised(xs);
    forall i | 0 <= i < |xs|
      ensures xs[i] == m ==> r[i] == 100.0
      ensures xs[i] >= 0.0 ==> 0.0 <= r[i] <= 100.0
    {
      ScoreBounds(xs[i], m);
    }
    forall i, j | 0 <= i < |xs| && 0 <= j < |xs|
      ensures xs[i] <= xs[j] <==> r[i] <= r[j]
    {
      ScoreOrder(xs[i], xs[j], m);
    }
  }

  lemma ScoreBounds(x: real, m: real)
    requires m > 0.0 && x <= m
    ensures x == m ==> x / m * 100.0 == 100.0
    ensures x >= 0.0 ==> 0.0 <= x / m * 100.0 <= 100.0
  {
    assert x / m <= 1.0;
  }

  lemma ScoreOrder(x: real, y: real, m: real)
    requires m > 0.0
    ensures x <= y <==> x / m * 100.0 <= y / m * 100.0
  {
    assert x <= y <==> x / m <= y / m;
  }

  /** The five radar axes, each bond's score at its own position (the chart keys the scores by
      bond name). */
  datatype RadarRow = RadarRow(metric: string, scores: seq<real>)

  function ModifiedDurations(rs: seq<BondResult>): (xs: seq<real>)
    ensures |xs| == |rs| && forall i :: 0 <= i < |rs| ==> xs[i] == rs[i].results.modifiedDuration
  {
    seq(|rs|, i requires 0 <= i < |rs| => rs[i].results.modifiedDuration)
  }

  function Convexities(rs: seq<BondResult>): (xs: seq<real>)
    ensures |xs| == |rs| && forall i :: 0 <= i < |rs| ==> xs[i] == rs[i].results.convexity
  {
    seq(|rs|, i requires 0 <= i < |rs| => rs[i].results.convexity)
  }

  function Prices(rs: seq<BondResult>): (xs: seq<real>)
    ensures |xs| == |rs| && forall i :: 0 <= i < |rs| ==> xs[i] == rs[i].results.price
  {
    seq(|rs|, i requires 0 <= i < |rs| => rs[i].results.price)
  }

  function CouponRates(rs: seq<BondResult>): (xs: seq<real>)
    ensures |xs| == |rs| && forall i :: 0 <= i < |rs| ==> xs[i] == rs[i].bond.params.couponRate
  {
    seq(|rs|, i requires 0 <= i < |rs| => rs[i].bond.params.couponRate)
  }

  function Ytms(rs: seq<BondResult>): (xs: seq<real>)
    ensures |xs| == |rs| && forall i :: 0 <= i < |rs| ==> xs[i] == rs[i].bond.params.ytm
  {
    seq(|rs|, i requires 0 <= i < |rs| => rs[i].bond.params.ytm)
  }

  /** Every radar axis has a non-zero largest value (otherwise the chart divides by zero). */
  predicate RadarDefined(rs: seq<BondResult>)
  {
    && rs != []
    && MaxOf(ModifiedDurations(rs)) != 0.0 && MaxOf(Convexities(rs)) != 0.0
    && MaxOf(Prices(rs)) != 0.0 && MaxOf(CouponRates(rs)) != 0.0 && MaxOf(Ytms(rs)) != 0.0
  }

  /** `radarData`: the axes Duration, Convexity, Price, Coupon Rate and YTM, in that order. */
  function RadarData(rs: seq<BondResult>): (rows: seq<RadarRow>)
    requires RadarDefined(rs)
    ensures |rows| == 5 && forall k :: 0 <= k < 5 ==> |rows[k].scores| == |rs|
  {
    [ RadarRow("Duration", Normalised(ModifiedDurations(rs))),
      RadarRow("Convexity", Normalised(Convexities(rs))),
      RadarRow("Price", Normalised(Prices(rs))),
      RadarRow("Coupon Rate", Normalised(CouponRates(rs))),
      RadarRow("YTM", Normalised(Ytms(rs))) ]
  }

  /** The first bond of a stable sort by descending value: the first index holding the
      largest value. */
  method HighestIndex(xs: seq<real>) returns (best: nat)
    requires xs != []
    ensures best < |xs| && xs[best] == MaxOf(xs)
    ensures forall i :: 0 <= i < |xs| ==> xs[i] <= xs[best]
    ensures forall i :: 0 <= i < best ==> xs[i] < xs[best]
  {
    best := 0;
    var i := 1;
    while i < |xs|
      invariant 1 <= i <= |xs| && best < i
      invariant forall j :: 0 <= j < i ==> xs[j] <= xs[best]
      invariant forall j :: 0 <= j < best ==> xs[j] < xs[best]
    {
      if xs[i] > xs[best] {
        best := i;
      }
      i := i + 1;
    }
    // The maximum is attained at some index, which xs[best] bounds from above.
    assert xs[best] == MaxOf(xs) by {
      var m :| 0 <= m < |xs| && xs[m] == MaxOf(xs);
      assert xs[m] <= xs[best] <= MaxOf(xs);
    }
  }

  /** "Duration Spread": the largest modified duration minus the smallest, never
      negative. */
  function DurationSpread(xs: seq<real>): (spread: real)
    requires xs != []
    ensures spread >= 0.0
    ensures forall i, j :: 0 <= i < |xs| && 0 <= j < |xs| ==> xs[i] - xs[j] <= spread
  {
    assert MinOf(xs) <= xs[0] <= MaxOf(xs);
    MaxOf(xs) - MinOf(xs)
  }

  /** The spread is zero exactly when all bonds have the same modified duration. */
  lemma DurationSpreadZero(xs: seq<real>)
    requires xs != []
    ensures DurationSpread(xs) == 0.0 <==>
      forall i, j :: 0 <= i < |xs| && 0 <= j < |xs| ==> xs[i] == xs[j]
  {
    var a :| 0 <= a < |xs| && xs[a] == MaxOf(xs);
    var b :| 0 <= b < |xs| && xs[b] == MinOf(xs);
  }
}
