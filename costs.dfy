/** The cost breakdowns behind the investment and operating-cost totals, and the three
    edit handlers that write a component and recompute the total the projection reads.
    A breakdown keeps its components in insertion order, as an object literal does; a
    handler replaces the edited component in place. The application only edits names it
    lists from the same breakdown, so a new name never arises; `SetAmount` appends one. */
module Costs {
  import opened Folds
  import opened Projection
  import opened Comparison

  datatype Component = Component(name: string, amount: real)

  type Breakdown = seq<Component>

  /** Which system the cost panel is editing; the comparison view edits the tracking costs. */
  datatype ViewMode = ComparisonView | FixedView | TrackingView

  /** The state the handlers read and write: the breakdowns, the two construction costs
      and the settings whose totals they keep up to date. */
  datatype CostState = CostState(
    viewMode: ViewMode,
    investmentBreakdown: Breakdown,
    staticConstructionCost: real,
    singleAxisTrackerCost: real,
    staticOpexBreakdown: Breakdown,
    trackerOpexBreakdown: Breakdown,
    settings: Settings)

  /** The amounts of a breakdown, in order. */
  function Amounts(b: Breakdown): (r: seq<real>)
    ensures |r| == |b| && forall k :: 0 <= k < |b| ==> r[k] == b[k].amount
  {
    seq(|b|, k requires 0 <= k < |b| => b[k].amount)
  }

  /** The total of a breakdown: its amounts reduced with + from 0. */
  function Total(b: Breakdown): real
  {
    Sum(Amounts(b))
  }

  /** No component name occurs twice, as in an object's keys. */
  predicate DistinctNames(b: Breakdown)
  {
    forall i, j :: 0 <= i < j < |b| ==> b[i].name != b[j].name
  }

  /** The amount recorded for `name`, 0 when there is none (the first entry wins). */
  function AmountOf(b: Breakdown, name: string): real
  {
    if |b| == 0 then 0.0
    else if b[0].name == name then b[0].amount
    else AmountOf(b[1..], name)
  }

  /** The breakdown with `name` set to `amount`: an existing component keeps its place, a new
      one goes at the end. */
  function SetAmount(b: Breakdown, name: string, amount: real): (r: Breakdown)
    ensures |r| >= |b| && AmountOf(r, name) == amount
    ensures forall other :: other != name ==> AmountOf(r, other) == AmountOf(b, other)
    ensures forall k :: 0 <= k < |b| ==> r[k].name == b[k].name
    ensures (exists k :: 0 <= k < |b| && b[k].name == name) ==> |r| == |b|
    ensures (forall k :: 0 <= k < |b| ==> b[k].name != name) ==> r == b + [Component(name, amount)]
  {
    if |b| == 0 then [Component(name, amount)]
    else if b[0].name == name then [Component(name, amount)] + b[1..]
    else
      var rest := SetAmount(b[1..], name, amount);
      assert forall k :: 1 <= k < |b| ==> b[1..][k - 1] == b[k];
      [b[0]] + rest
  }

  /** Setting a component keeps the names distinct. */
  lemma {:induction false} SetAmountDistinct(b: Breakdown, name: string, amount: real)
    requires DistinctNames(b)
    ensures DistinctNames(SetAmount(b, name, amount))
  {
    var r := SetAmount(b, name, amount);
    if |b| > 0 && b[0].name != name {
      var rest := SetAmount(b[1..], name, amount);
      assert r == [b[0]] + rest;
      SetAmountDistinct(b[1..], name, amount);
      forall i, j | 0 <= i < j < |r|
        ensures r[i].name != r[j].name
      {
        if i == 0 {
          HeadNameFresh(b, name, amount, j);
        } else {
          assert r[i] == rest[i - 1] && r[j] == rest[j - 1];
        }
      }
    }
  }

  /** When the first component is not the one set, its name occurs nowhere else after the set. */
  lemma HeadNameFresh(b: Breakdown, name: string, amount: real, j: nat)
    requires DistinctNames(b) && |b| > 0 && b[0].name != name
    requires 0 < j < |SetAmount(b, name, amount)|
    ensures SetAmount(b, name, amount)[0].name != SetAmount(b, name, amount)[j].name
  {
    var rest := SetAmount(b[1..], name, amount);
    assert SetAmount(b, name, amount) == [b[0]] + rest;
    NameOccurs(b[1..], name, amount, j - 1);
    if rest[j - 1].name != name {
      var k :| 0 <= k < |b| - 1 && b[1..][k].name == rest[j - 1].name;
      assert b[k + 1].name == rest[j - 1].name;
    }
  }

  /** Every name in a set breakdown was there before or is the one set. */
  lemma {:induction false} NameOccurs(b: Breakdown, name: string, amount: real, j: nat)
    requires j < |SetAmount(b, name, amount)|
    ensures SetAmount(b, name, amount)[j].name == name
         || exists k :: 0 <= k < |b| && b[k].name == SetAmount(b, name, amount)[j].name
  {
    var r := SetAmount(b, name, amount);
    if j < |b| {
      assert r[j].name == b[j].name;
    }
  }

  /** The total is the first amount plus the total of the rest. */
  lemma TotalCons(b: Breakdown)
    requires |b| > 0
    ensures Total(b) == b[0].amount + Total(b[1..])
  {
    assert Amounts(b) == [b[0].amount] + Amounts(b[1..]);
    SumPrepend(b[0].amount, Amounts(b[1..]));
  }

  /** Setting a component moves the total by the change of that component alone. */
  lemma {:induction false} TotalAfterSet(b: Breakdown, name: string, amount: real)
    ensures Total(SetAmount(b, name, amount)) == Total(b) - AmountOf(b, name) + amount
  {
    var r := SetAmount(b, name, amount);
    if |b| == 0 {
      assert Amounts(r) == [amount];
      assert Sum([amount]) == Sum([]) + amount;
    } else {
      TotalCons(b);
      TotalCons(r);
      if b[0].name == name {
        assert r[1..] == b[1..];
      } else {
        TotalAfterSet(b[1..], name, amount);
        assert r[1..] == SetAmount(b[1..], name, amount);
      }
    }
  }

  /** The fixed system's investment is the shared components plus the static construction. */
  predicate FixedInvestmentCurrent(st: CostState)
  {
    st.settings.fixedInitialInvestment == Total(st.investmentBreakdown) + st.staticConstructionCost
  }

  /** The tracking system's investment is the shared components plus the tracker cost. */
  predicate TrackingInvestmentCurrent(st: CostState)
  {
    st.settings.trackingInitialInvestment == Total(st.investmentBreakdown) + st.singleAxisTrackerCost
  }

  /** An edit of a shared investment component: the breakdown is updated, and the investment
      of the system the view edits (fixed in the fixed view, tracking otherwise) becomes the
      new total plus that system's own construction cost. */
  function InitialInvestmentChange(st: CostState, component: string, value: real): (st': CostState)
    ensures st'.investmentBreakdown == SetAmount(st.investmentBreakdown, component, value)
    ensures st'.viewMode == FixedView ==> FixedInvestmentCurrent(st')
    ensures st'.viewMode != FixedView ==> TrackingInvestmentCurrent(st')
    ensures st'.viewMode == FixedView ==>
      st'.settings == st.settings.(fixedInitialInvestment := st'.settings.fixedInitialInvestment)
    ensures st'.viewMode != FixedView ==>
      st'.settings == st.settings.(trackingInitialInvestment := st'.settings.trackingInitialInvestment)
    ensures st' == st.(investmentBreakdown := st'.investmentBreakdown, settings := st'.settings)
  {
    var breakdown := SetAmount(st.investmentBreakdown, component, value);
    var newTotal := Total(breakdown);
    var settings := if st.viewMode == FixedView
      then st.settings.(fixedInitialInvestment := newTotal + st.staticConstructionCost)
      else st.settings.(trackingInitialInvestment := newTotal + st.singleAxisTrackerCost);
    st.(investmentBreakdown := breakdown, settings := settings)
  }

  /** An edit of a component moves the investment total the view edits by the change of that
      component; the other system's investment stays as it was. */
  lemma InvestmentEditMovesTotal(st: CostState, component: string, value: real)
    requires FixedInvestmentCurrent(st) && TrackingInvestmentCurrent(st)
    ensures var st' := InitialInvestmentChange(st, component, value);
      var delta := value - AmountOf(st.investmentBreakdown, component);
      && (st.viewMode == FixedView ==>
            st'.settings.fixedInitialInvestment == st.settings.fixedInitialInvestment + delta
            && st'.settings.trackingInitialInvestment == st.settings.trackingInitialInvestment)
      && (st.viewMode != FixedView ==>
            st'.settings.trackingInitialInvestment == st.settings.trackingInitialInvestment + delta
            && st'.settings.fixedInitialInvestment == st.settings.fixedInitialInvestment)
  {
    TotalAfterSet(st.investmentBreakdown, component, value);
  }

  /** An edit of a construction cost: the static cost sets the fixed investment, the tracker
      cost the tracking investment, each as the shared components plus the new cost. */
  function ConstructionCostChange(st: CostState, isStatic: bool, value: real): (st': CostState)
    ensures isStatic ==> FixedInvestmentCurrent(st') && st'.staticConstructionCost == value
    ensures !isStatic ==> TrackingInvestmentCurrent(st') && st'.singleAxisTrackerCost == value
    ensures isStatic ==> st' == st.(staticConstructionCost := value,
      settings := st.settings.(fixedInitialInvestment := st'.settings.fixedInitialInvestment))
    ensures !isStatic ==> st' == st.(singleAxisTrackerCost := value,
      settings := st.settings.(trackingInitialInvestment := st'.settings.trackingInitialInvestment))
  {
    var newTotal := Total(st.investmentBreakdown) + value;
    if isStatic then
      st.(staticConstructionCost := value, settings := st.settings.(fixedInitialInvestment := newTotal))
    else
      st.(singleAxisTrackerCost := value, settings := st.settings.(trackingInitialInvestment := newTotal))
  }

  /** A construction-cost edit keeps both investments current when they were. */
  lemma ConstructionEditKeepsTotals(st: CostState, isStatic: bool, value: real)
    requires FixedInvestmentCurrent(st) && TrackingInvestmentCurrent(st)
    ensures FixedInvestmentCurrent(ConstructionCostChange(st, isStatic, value))
    ensures TrackingInvestmentCurrent(ConstructionCostChange(st, isStatic, value))
  {
  }

  /** An edit of an operating-cost component: the static or tracker breakdown is updated, and
      the yearly opex becomes its new total only when the view shows that same system (the
      comparison view edits the tracker breakdown but leaves the yearly opex alone). */
  function OpexChange(st: CostState, component: string, value: real, isStatic: bool): (st': CostState)
    ensures isStatic ==>
      st'.staticOpexBreakdown == SetAmount(st.staticOpexBreakdown, component, value)
      && st'.trackerOpexBreakdown == st.trackerOpexBreakdown
    ensures !isStatic ==>
      st'.trackerOpexBreakdown == SetAmount(st.trackerOpexBreakdown, component, value)
      && st'.staticOpexBreakdown == st.staticOpexBreakdown
    ensures isStatic && st.viewMode == FixedView ==> st'.settings.yearlyOpex == Total(st'.staticOpexBreakdown)
    ensures !isStatic && st.viewMode == TrackingView ==> st'.settings.yearlyOpex == Total(st'.trackerOpexBreakdown)
    ensures st'.settings == st.settings.(yearlyOpex := st'.settings.yearlyOpex)
    ensures !(isStatic && st.viewMode == FixedView) && !(!isStatic && st.viewMode == TrackingView) ==>
      st'.settings == st.settings
    ensures st' == st.(staticOpexBreakdown := st'.staticOpexBreakdown,
      trackerOpexBreakdown := st'.trackerOpexBreakdown, settings := st'.settings)
  {
    if isStatic then
      var breakdown := SetAmount(st.staticOpexBreakdown, component, value);
      var settings := if st.viewMode == FixedView
        then st.settings.(yearlyOpex := Total(breakdown)) else st.settings;
      st.(staticOpexBreakdown := breakdown, settings := settings)
    else
      var breakdown := SetAmount(st.trackerOpexBreakdown, component, value);
      var settings := if st.viewMode == TrackingView
        then st.settings.(yearlyOpex := Total(breakdown)) else st.settings;
      st.(trackerOpexBreakdown := breakdown, settings := settings)
  }

  /** An opex edit in the view of its own system moves the yearly opex by the change of the
      edited component. */
  lemma OpexEditMovesTotal(st: CostState, component: string, value: real, isStatic: bool)
    requires isStatic ==> st.viewMode == FixedView && st.settings.yearlyOpex == Total(st.staticOpexBreakdown)
    requires !isStatic ==> st.viewMode == TrackingView && st.settings.yearlyOpex == Total(st.trackerOpexBreakdown)
    ensures OpexChange(st, component, value, isStatic).settings.yearlyOpex
         == st.settings.yearlyOpex + value
            - AmountOf(if isStatic then st.staticOpexBreakdown else st.trackerOpexBreakdown, component)
  {
    TotalAfterSet(if isStatic then st.staticOpexBreakdown else st.trackerOpexBreakdown, component, value);
  }

  /** The breakdowns the application starts with, in the comparison view. */
  function DefaultState(): CostState
  {
    CostState(
      viewMode := ComparisonView,
      investmentBreakdown := [
        Component("Solar Panels", 13799986.20),
        Component("Inverters", 3072000.00),
        Component("Fence", 120000.00),
        Component("Grid Connection", 300000.00),
        Component("Land Lease", 764800.00),
        Component("Site Preparation", 47800.00),
        Component("Foundations", 3000000.00),
        Component("Electrical Equipment", 7000000.00),
        Component("Monitoring Systems", 150000.00),
        Component("Engineering", 750000.00),
        Component("Construction", 1000000.00)],
      staticConstructionCost := 5000000.00,
      singleAxisTrackerCost := 8000000.00,
      staticOpexBreakdown := [
        Component("Balancing Fee", 610914.00),
        Component("Maintenance", 322500.00),
        Component("Insurance", 129000.00),
        Component("Monitoring & Performance Analysis", 100000.00),
        Component("Administrative Expenses", 400000.00),
        Component("Security", 200000.00),
        Component("Reserve Funds", 200000.00)],
      trackerOpexBreakdown := [
        Component("Balancing Fee", 782446.00),
        Component("Maintenance", 537500.00),
        Component("Insurance", 129000.00),
        Component("Monitoring & Performance Analysis", 100000.00),
        Component("Administrative Expenses", 400000.00),
        Component("Security", 200000.00),
        Component("Reserve Funds", 200000.00)],
      settings := DefaultSettings())
  }

  /** The default investments are the default components plus each system's construction
      cost. */
  lemma DefaultInvestmentsCurrent()
    ensures FixedInvestmentCurrent(DefaultState()) && TrackingInvestmentCurrent(DefaultState())
    ensures Total(DefaultState().investmentBreakdown) == 30004586.20
  {
    TotalIsFromFront(DefaultState().investmentBreakdown);
  }

  /** The default yearly opex is the tracker breakdown's total; the static breakdown totals
      1,962,414. */
  lemma DefaultOpexCurrent()
    ensures DefaultState().settings.yearlyOpex == Total(DefaultState().trackerOpexBreakdown)
    ensures Total(DefaultState().staticOpexBreakdown) == 1962414.00
  {
    var st := DefaultState();
    TotalIsFromFront(st.staticOpexBreakdown);
    TotalIsFromFront(st.trackerOpexBreakdown);
  }

  /** The total computed from the front: the first amount plus the total of the rest. */
  function TotalFromFront(b: Breakdown): real
  {
    if |b| == 0 then 0.0 else b[0].amount + TotalFromFront(b[1..])
  }

  /** The order of addition does not change the total. */
  lemma {:induction false} TotalIsFromFront(b: Breakdown)
    ensures Total(b) == TotalFromFront(b)
  {
    if |b| == 0 {
      assert Amounts(b) == [];
    } else {
      TotalCons(b);
      TotalIsFromFront(b[1..]);
    }
  }
}
