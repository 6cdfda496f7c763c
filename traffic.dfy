/** The interface records reported by `vnstat --json`, the "has traffic" test
    applied to each of them, and the filter that keeps the interfaces that
    pass it. */
module Traffic {

  datatype Option<+T> = None | Some(value: T) {
    /** Python's `d.get(key, default)` once the lookup has been made. */
    function GetOr(default: T): T {
      match this
      case Some(v) => v
      case None => default
    }
  }

  /** An `{rx, tx}` object: `traffic.total` or one entry of `traffic.day`.
      A key the tool left out is `None`. */
  datatype Counters = Counters(rx: Option<int>, tx: Option<int>)

  /** The `traffic` object of an interface: the `total` aggregate and the
      `day` list, each possibly absent. */
  datatype TrafficStats = TrafficStats(total: Option<Counters>, day: Option<seq<Counters>>)

  /** One element of the `interfaces` list. Apart from `traffic`, only the
      interface's name is modelled; a kept record is passed on whole. */
  datatype Interface = Interface(name: string, traffic: Option<TrafficStats>)

  const EmptyCounters := Counters(None, None)

  /** `c.get('rx', 0)` */
  function Rx(c: Counters): int { c.rx.GetOr(0) }

  /** `c.get('tx', 0)` */
  function Tx(c: Counters): int { c.tx.GetOr(0) }

  /** `iface.get('traffic', {}).get('total', {})` */
  function TotalOf(iface: Interface): Counters {
    match iface.traffic
    case None => EmptyCounters
    case Some(t) => t.total.GetOr(EmptyCounters)
  }

  /** `iface.get('traffic', {}).get('day', [])` */
  function DaysOf(iface: Interface): seq<Counters> {
    match iface.traffic
    case None => []
    case Some(t) => t.day.GetOr([])
  }

  /** A counter pair that shows traffic in either direction. */
  predicate Active(c: Counters) {
    Rx(c) > 0 || Tx(c) > 0
  }

  /** The reference meaning of the filter's test: the total shows traffic,
      or some day does. */
  ghost predicate HasTraffic(iface: Interface) {
    || Active(TotalOf(iface))
    || exists k :: 0 <= k < |DaysOf(iface)| && Active(DaysOf(iface)[k])
  }

  /** The interfaces of `s` that have traffic, in their original order. */
  ghost function Kept(s: seq<Interface>): seq<Interface> {
    if s == [] then []
    else Kept(s[..|s| - 1]) + (if HasTraffic(s[|s| - 1]) then [s[|s| - 1]] else [])
  }

  /** The positions of `s` that the filter keeps: an increasing list of
      indices into `s`, holding exactly the positions whose interface has
      traffic, such that the filtered list is `s` read at those positions.
      So the filtered list is a subsequence of `s` in the original order,
      each element unchanged, and nothing with traffic is dropped. */
  ghost function KeptPositions(s: seq<Interface>): (idx: seq<nat>)
    ensures |idx| == |Kept(s)|
    ensures forall m :: 0 <= m < |idx| ==> idx[m] < |s| && Kept(s)[m] == s[idx[m]]
    ensures forall m, n :: 0 <= m < n < |idx| ==> idx[m] < idx[n]
    ensures forall j :: 0 <= j < |s| ==> (j in idx <==> HasTraffic(s[j]))
  {
    if s == [] then []
    else
      var front := s[..|s| - 1];
      var last := |s| - 1;
      var idx := KeptPositions(front) + (if HasTraffic(s[last]) then [last] else []);
      assert forall j :: 0 <= j < last ==> s[j] == front[j];
      idx
  }

  /** An interface is in the filtered list exactly when it is in the input
      and has traffic. */
  lemma {:induction false} KeptMembers(s: seq<Interface>)
    ensures forall x :: x in Kept(s) <==> x in s && HasTraffic(x)
  {
    var idx := KeptPositions(s);
    forall x | x in Kept(s)
      ensures x in s && HasTraffic(x)
    {
      var m :| 0 <= m < |Kept(s)| && Kept(s)[m] == x;
      assert idx[m] in idx;
    }
    forall x | x in s && HasTraffic(x)
      ensures x in Kept(s)
    {
      var j :| 0 <= j < |s| && s[j] == x;
      assert j in idx;
      var m :| 0 <= m < |idx| && idx[m] == j;
      assert Kept(s)[m] == x;
    }
  }

  /** The filtered list is empty exactly when no interface has traffic. */
  lemma {:induction false} KeptEmpty(s: seq<Interface>)
    ensures Kept(s) == [] <==> forall k :: 0 <= k < |s| ==> !HasTraffic(s[k])
  {
    KeptMembers(s);
    if Kept(s) != [] {
      assert Kept(s)[0] in Kept(s);
    }
  }

  /** An interface whose total shows traffic is kept, whatever its days hold. */
  lemma {:induction false} ActiveTotalIsKept(s: seq<Interface>, j: int)
    requires 0 <= j < |s| && Active(TotalOf(s[j]))
    ensures s[j] in Kept(s)
  {
    KeptMembers(s);
  }

  /** An interface whose total shows no traffic is kept exactly when one of
      its days shows traffic. */
  lemma IdleTotalKeptIffActiveDay(s: seq<Interface>, j: int)
    requires 0 <= j < |s| && !Active(TotalOf(s[j]))
    ensures s[j] in Kept(s) <==> exists k :: 0 <= k < |DaysOf(s[j])| && Active(DaysOf(s[j])[k])
  {
    KeptMembers(s);
  }

  /** An interface of the input left out of the filtered list has no
      positive counter: neither in its total nor on any day. */
  lemma {:induction false} OmittedAreIdle(s: seq<Interface>, x: Interface)
    requires x in s && x !in Kept(s)
    ensures Rx(TotalOf(x)) <= 0 && Tx(TotalOf(x)) <= 0
    ensures forall k :: 0 <= k < |DaysOf(x)| ==> Rx(DaysOf(x)[k]) <= 0 && Tx(DaysOf(x)[k]) <= 0
  {
    KeptMembers(s);
  }

  /** The per-interface test as the loop body computes it: the total first,
      then a scan of the days that stops at the first day with traffic. */
  method InterfaceHasTraffic(iface: Interface) returns (hasTraffic: bool)
    ensures hasTraffic == HasTraffic(iface)
  {
    var traffic := match iface.traffic case Some(t) => t case None => TrafficStats(None, None);
    var total := traffic.total.GetOr(EmptyCounters);
    assert total == TotalOf(iface);
    hasTraffic := false;
    var totalRx := total.rx.GetOr(0);
    var totalTx := total.tx.GetOr(0);
    if totalRx > 0 || totalTx > 0 {
      hasTraffic := true;
    } else {
      var days := traffic.day.GetOr([]);
      assert days == DaysOf(iface);
      var i := 0;
      while i < |days|
        invariant 0 <= i <= |days|
        invariant !hasTraffic
        invariant forall k :: 0 <= k < i ==> !Active(days[k])
      {
        var dayRx := days[i].rx.GetOr(0);
        var dayTx := days[i].tx.GetOr(0);
        if dayRx > 0 || dayTx > 0 {
          assert Active(days[i]);
          hasTraffic := true;
          break;
        }
        i := i + 1;
      }
    }
  }

  /** The filtering loop: appends each interface that has traffic to the
      result, in input order. */
  method FilterInterfaces(interfaces: seq<Interface>) returns (withTraffic: seq<Interface>)
    ensures withTraffic == Kept(interfaces)
  {
    withTraffic := [];
    var i := 0;
    while i < |interfaces|
      invariant 0 <= i <= |interfaces|
      invariant withTraffic == Kept(interfaces[..i])
    {
      var iface := interfaces[i];
      var hasTraffic := InterfaceHasTraffic(iface);
      assert interfaces[..i + 1][..i] == interfaces[..i];
      if hasTraffic {
        withTraffic := withTraffic + [iface];
      }
      i := i + 1;
    }
    assert interfaces[..i] == interfaces;
  }
}
