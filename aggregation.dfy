/**
 * The aggregator's histogram table, shared by both metrics variants.
 *
 * hdrhistogram is a foreign library, so a histogram is abstracted as the
 * precision it was created with and the samples recorded into it, in
 * recording order.
 */
module Aggregation {

  /** Unsigned 64-bit integers: clock readings and elapsed durations. */
  type U64 = x: int | 0 <= x < 0x1_0000_0000_0000_0000

  /** The largest number of significant figures hdrhistogram accepts. */
  const MaxSigfig: nat := 5

  /** A precision that `Histogram::new_with_bounds` accepts. */
  type Sigfig = x: nat | x <= MaxSigfig

  datatype Histogram = Histogram(sigfig: Sigfig, samples: seq<U64>)

  /** The per-span-name histogram table. */
  type Table = map<string, Histogram>

  /** The part of a `SpanExit` event that the aggregator records. */
  datatype Sample = Sample(name: string, elapsed: U64)

  /** The samples a name holds in `t`; a name without a histogram holds none. */
  function Prior(t: Table, name: string): seq<U64>
  {
    if name in t then t[name].samples else []
  }

  /**
   * `entry(name).or_insert_with(new histogram).record(elapsed)`: the histogram
   * for the sample's name gains the sample, and is created first, with
   * precision `sigfig`, when the name has none.
   */
  function Recorded(t: Table, s: Sample, sigfig: Sigfig): (r: Table)
    ensures r.Keys == t.Keys + {s.name}
    ensures r[s.name].samples == Prior(t, s.name) + [s.elapsed]
    ensures r[s.name].sigfig == if s.name in t then t[s.name].sigfig else sigfig
    ensures forall n :: n in t && n != s.name ==> r[n] == t[n]
  {
    var h := if s.name in t then t[s.name] else Histogram(sigfig, []);
    t[s.name := h.(samples := h.samples + [s.elapsed])]
  }

  /** Records every sample of `s` into `t`, in order. */
  function RecordAll(t: Table, s: seq<Sample>, sigfig: Sigfig): Table
  {
    if s == [] then t else Recorded(RecordAll(t, s[..|s| - 1], sigfig), s[|s| - 1], sigfig)
  }

  /** The names mentioned in `s`. */
  function Names(s: seq<Sample>): set<string>
  {
    set i | 0 <= i < |s| :: s[i].name
  }

  /** The elapsed values of the samples of `s` named `name`, in order. */
  function SamplesOf(s: seq<Sample>, name: string): seq<U64>
  {
    if s == [] then []
    else SamplesOf(s[..|s| - 1], name) + (if s[|s| - 1].name == name then [s[|s| - 1].elapsed] else [])
  }

  /** Recording creates exactly one entry per new name and removes none. */
  lemma {:induction false} RecordAllKeys(t: Table, s: seq<Sample>, sigfig: Sigfig)
    ensures RecordAll(t, s, sigfig).Keys == t.Keys + Names(s)
  {
    if s != [] {
      var init := s[..|s| - 1];
      RecordAllKeys(t, init, sigfig);
      assert Names(s) == Names(init) + {s[|s| - 1].name} by {
        forall n | n in Names(s) ensures n in Names(init) + {s[|s| - 1].name} {
          var i :| 0 <= i < |s| && s[i].name == n;
          if i < |s| - 1 { assert init[i] == s[i]; }
        }
        forall n | n in Names(init) ensures n in Names(s) {
          var i :| 0 <= i < |init| && init[i].name == n;
          assert s[i] == init[i];
        }
      }
    }
  }

  /** Every name's samples grow by exactly its samples in `s`, in order. */
  lemma {:induction false} RecordAllSamples(t: Table, s: seq<Sample>, sigfig: Sigfig, name: string)
    ensures Prior(RecordAll(t, s, sigfig), name) == Prior(t, name) + SamplesOf(s, name)
  {
    if s != [] {
      RecordAllSamples(t, s[..|s| - 1], sigfig, name);
    }
  }

  /** A histogram keeps the precision it was created with; new ones get `sigfig`. */
  lemma {:induction false} RecordAllSigfig(t: Table, s: seq<Sample>, sigfig: Sigfig, name: string)
    requires name in RecordAll(t, s, sigfig)
    ensures RecordAll(t, s, sigfig)[name].sigfig == if name in t then t[name].sigfig else sigfig
  {
    if s != [] {
      var init := s[..|s| - 1];
      var before := RecordAll(t, init, sigfig);
      if name in before {
        RecordAllSigfig(t, init, sigfig, name);
      } else {
        RecordAllKeys(t, init, sigfig);
      }
    }
  }

  /** Recording `a` and then `b` is recording `a + b`. */
  lemma {:induction false} RecordAllAppend(t: Table, a: seq<Sample>, b: seq<Sample>, sigfig: Sigfig)
    ensures RecordAll(t, a + b, sigfig) == RecordAll(RecordAll(t, a, sigfig), b, sigfig)
  {
    if b == [] {
      assert a + b == a;
    } else {
      var binit := b[..|b| - 1];
      assert (a + b)[..|a + b| - 1] == a + binit;
      assert (a + b)[|a + b| - 1] == b[|b| - 1];
      RecordAllAppend(t, a, binit, sigfig);
    }
  }

  /** N samples of one name with durations d_1..d_N are recorded as exactly d_1..d_N. */
  lemma {:induction false} SamplesOfOneName(s: seq<Sample>, name: string)
    requires forall i :: 0 <= i < |s| ==> s[i].name == name
    ensures |SamplesOf(s, name)| == |s|
    ensures forall i :: 0 <= i < |s| ==> SamplesOf(s, name)[i] == s[i].elapsed
  {
    if s != [] {
      SamplesOfOneName(s[..|s| - 1], name);
    }
  }

  /** `visits` lists every entry of `t` exactly once, each with its histogram. */
  ghost predicate Enumerates(visits: seq<(string, Histogram)>, t: Table)
  {
    && (forall i :: 0 <= i < |visits| ==> visits[i].0 in t && visits[i].1 == t[visits[i].0])
    && (forall i, j :: 0 <= i < j < |visits| ==> visits[i].0 != visits[j].0)
    && (forall n :: n in t ==> exists i :: 0 <= i < |visits| && visits[i].0 == n)
  }

  /**
   * `iter().for_each(|(name, histogram)| f(name, histogram))`: the visitor
   * is called once per entry, in the map's (unspecified) iteration order.
   * The calls are returned as the sequence of their arguments; what a
   * visitor computes from them is a fold over that sequence.
   */
  method VisitAll(t: Table) returns (visits: seq<(string, Histogram)>)
    ensures Enumerates(visits, t)
  {
    visits := [];
    var rest := t.Keys;
    while rest != {}
      invariant rest <= t.Keys
      invariant forall i :: 0 <= i < |visits| ==> visits[i].0 in t.Keys - rest && visits[i].1 == t[visits[i].0]
      invariant forall i, j :: 0 <= i < j < |visits| ==> visits[i].0 != visits[j].0
      invariant forall n :: n in t && n !in rest ==> exists i :: 0 <= i < |visits| && visits[i].0 == n
      decreases rest
    {
      var n :| n in rest;
      ghost var before := visits;
      visits := visits + [(n, t[n])];
      rest := rest - {n};
      forall m | m in t && m !in rest ensures exists i :: 0 <= i < |visits| && visits[i].0 == m {
        if m == n {
          assert visits[|before|].0 == m;
        } else {
          var i :| 0 <= i < |before| && before[i].0 == m;
          assert visits[i].0 == m;
        }
      }
    }
  }
}
