/** What the spike detector and the alert engine share: the three metric
    categories, the order in which both report them, the relative-increase rule,
    and the rule that names an event after the categories it carries. */
module Events {

  const Categories: seq<string> := ["cpu", "memory", "network"]

  /** Position of a category in the reporting order cpu, memory, network. */
  function Rank(c: string): nat
    requires c in Categories
  {
    if c == "cpu" then 0 else if c == "memory" then 1 else 2
  }

  /** r holds only categories, each at most once, in the order cpu, memory,
      network: an ordered subsequence of Categories. */
  predicate InCategoryOrder(r: seq<string>) {
    && (forall i :: 0 <= i < |r| ==> r[i] in Categories)
    && (forall i, j :: 0 <= i < j < |r| && r[i] in Categories && r[j] in Categories ==> Rank(r[i]) < Rank(r[j]))
  }

  /** What a detector returns once it has decided category by category: the
      tripped categories appended in order. */
  function Tripped(cpu: bool, memory: bool, network: bool): (r: seq<string>)
    ensures InCategoryOrder(r)
    ensures ("cpu" in r <==> cpu) && ("memory" in r <==> memory) && ("network" in r <==> network)
    ensures |r| <= 3
    ensures r == [] <==> !cpu && !memory && !network
  {
    (if cpu then ["cpu"] else []) + (if memory then ["memory"] else []) + (if network then ["network"] else [])
  }

  /** The `metric` of a spike or alert event and the SYS_EVENT_METRIC of a script
      round: the sole category when exactly one tripped, otherwise "multi". */
  function MetricFor(reasons: seq<string>): (m: string)
    ensures |reasons| == 1 ==> m == reasons[0]
    ensures |reasons| != 1 ==> m == "multi"
  {
    if |reasons| == 1 then reasons[0] else "multi"
  }

  /** For a detector's output, the name "multi" is chosen exactly when the event
      does not carry one single category; a single category is never confused
      with it. */
  lemma MetricIsMultiIff(reasons: seq<string>)
    requires InCategoryOrder(reasons)
    ensures MetricFor(reasons) == "multi" <==> |reasons| != 1
    ensures MetricFor(reasons) == "multi" || MetricFor(reasons) in Categories
  {
    if |reasons| == 1 {
      assert reasons[0] in Categories;
    }
  }

  /** The relative rule of both detectors: with a positive previous value and a
      positive threshold, the increase over the previous value, in percent,
      reaches the threshold. */
  predicate RelativeRise(current: real, previous: real, relative: real) {
    previous > 0.0 && relative > 0.0 && ((current - previous) / previous) * 100.0 >= relative
  }

  /** The relative rule without division: the current value is at least
      (100 + relative)% of the previous one. */
  lemma RelativeRiseIff(current: real, previous: real, relative: real)
    ensures RelativeRise(current, previous, relative)
            <==> previous > 0.0 && relative > 0.0 && current * 100.0 >= previous * (100.0 + relative)
  {
    if previous > 0.0 {
      var q := (current - previous) / previous;
      assert q * previous == current - previous;
      calc {
        q * 100.0 >= relative;
      <==> { MultiplyBothSides(q * 100.0, relative, previous); }
        q * 100.0 * previous >= relative * previous;
      <==> { assert q * 100.0 * previous == (current - previous) * 100.0; }
        current * 100.0 >= previous * (100.0 + relative);
      }
    }
  }

  lemma MultiplyBothSides(a: real, b: real, c: real)
    requires c > 0.0
    ensures a >= b <==> a * c >= b * c
  {
    if a >= b {
      assert (a - b) * c >= 0.0;
    } else {
      assert (b - a) * c > 0.0;
    }
  }
}
