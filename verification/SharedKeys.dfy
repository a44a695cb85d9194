/**
End points of different rules under one key. Rules that differ only in their path
or in the end of their port range give their common end points the same key, and
a sweep compares each of their counters with the one it read before it.
*/
module SharedKeys {
  import opened Common
  import opened LbTraffic

  /** What sample `i` adds to the export of a sweep. */
  function DeltaAt(prev: Baselines, ss: seq<Sample>, i: nat): Stats
    requires i < |ss|
  {
    Delta(Look(Baseline(prev, ss[..i]), ss[i].key), ss[i].cur)
  }

  /** No sample adds anything. */
  ghost predicate Silent(prev: Baselines, ss: seq<Sample>) {
    forall i :: 0 <= i < |ss| ==> Zero(DeltaAt(prev, ss, i))
  }

  /** Samples of one key have one counter value. */
  ghost predicate KeysAgree(ss: seq<Sample>) {
    forall i, j :: 0 <= i < |ss| && 0 <= j < |ss| && ss[i].key == ss[j].key ==> ss[i].cur == ss[j].cur
  }

  lemma {:induction false} IncreaseIsZeroIff(prev: Baselines, ss: seq<Sample>, u: Unit)
    ensures Increase(prev, ss, All, u) == 0 <==> forall i :: 0 <= i < |ss| ==> Amount(DeltaAt(prev, ss, i), u) == 0
    decreases |ss|
  {
    if ss != [] {
      var n := |ss| - 1;
      var init := ss[..n];
      IncreaseIsZeroIff(prev, init, u);
      assert forall i :: 0 <= i < n ==> init[..i] == ss[..i] && init[i] == ss[i];
      assert forall i :: 0 <= i < n ==> DeltaAt(prev, init, i) == DeltaAt(prev, ss, i);
      assert Increase(prev, ss, All, u) == Increase(prev, init, All, u) + Amount(DeltaAt(prev, ss, n), u);
    }
  }

  /** A sweep exports nothing in both units exactly if no sample adds anything. */
  lemma SilentIff(prev: Baselines, ss: seq<Sample>)
    ensures Increase(prev, ss, All, Packets) == 0 && Increase(prev, ss, All, Bytes) == 0 <==> Silent(prev, ss)
  {
    IncreaseIsZeroIff(prev, ss, Packets);
    IncreaseIsZeroIff(prev, ss, Bytes);
    forall i | 0 <= i < |ss|
      ensures Zero(DeltaAt(prev, ss, i)) <==>
              Amount(DeltaAt(prev, ss, i), Packets) == 0 && Amount(DeltaAt(prev, ss, i), Bytes) == 0
    {
    }
  }

  // ------------------------------------------------------------ one key's counters

  /** The value that the next sample of the key is compared with, after `i` samples. */
  function At(prev: Baselines, ss: seq<Sample>, k: Key, i: nat): Option<Stats>
    requires i <= |ss|
  {
    Look(Baseline(prev, ss[..i]), k)
  }

  lemma AtNext(prev: Baselines, ss: seq<Sample>, k: Key, i: nat)
    requires i < |ss|
    ensures At(prev, ss, k, i + 1) == if ss[i].key == k then Some(ss[i].cur) else At(prev, ss, k, i)
  {
    assert ss[..i + 1][..i] == ss[..i];
  }

  lemma SameWhenZero(a: Stats, b: Stats)
    requires Zero(a) && Zero(b)
    ensures a == b
  {
  }

  /** A step without increase stays or falls to zero, and never rises from it. */
  lemma SilentStep(p: Stats, cur: Stats)
    requires Zero(Delta(Some(p), cur))
    ensures cur == p || Zero(cur)
    ensures Zero(p) ==> Zero(cur)
  {
    if AtMost(p, cur) {
      assert cur.packets - p.packets <= 0 && cur.bytes - p.bytes <= 0;
    }
  }

  /** In a silent sweep a value of zero stays. */
  lemma {:induction false} ZeroStays(prev: Baselines, ss: seq<Sample>, k: Key, i: nat, j: nat)
    requires i <= j <= |ss| && Silent(prev, ss) && At(prev, ss, k, i).Some? && Zero(At(prev, ss, k, i).value)
    ensures At(prev, ss, k, j).Some? && Zero(At(prev, ss, k, j).value)
    decreases j
  {
    if i < j {
      ZeroStays(prev, ss, k, i, j - 1);
      AtNext(prev, ss, k, j - 1);
      if ss[j - 1].key == k {
        assert Zero(DeltaAt(prev, ss, j - 1));
        SilentStep(At(prev, ss, k, j - 1).value, ss[j - 1].cur);
      }
    }
  }

  /** In a silent sweep that ends at another value the value never changed. */
  lemma {:induction false} NonZeroWasAlways(prev: Baselines, ss: seq<Sample>, k: Key, i: nat)
    requires i <= |ss| && Silent(prev, ss) && At(prev, ss, k, 0).Some?
    requires At(prev, ss, k, |ss|).Some? && !Zero(At(prev, ss, k, |ss|).value)
    ensures At(prev, ss, k, i) == At(prev, ss, k, |ss|)
    decreases |ss| - i
  {
    if i < |ss| {
      NonZeroWasAlways(prev, ss, k, i + 1);
      AtNext(prev, ss, k, i);
      if ss[i].key == k {
        AtIsSome(prev, ss, k, i);
        assert Zero(DeltaAt(prev, ss, i));
        SilentStep(At(prev, ss, k, i).value, ss[i].cur);
      }
    }
  }

  lemma {:induction false} AtIsSome(prev: Baselines, ss: seq<Sample>, k: Key, i: nat)
    requires i <= |ss| && At(prev, ss, k, 0).Some?
    ensures At(prev, ss, k, i).Some?
  {
    if i > 0 {
      AtIsSome(prev, ss, k, i - 1);
      AtNext(prev, ss, k, i - 1);
    }
  }

  // ------------------------------------------------------------------ same samples

  /** What a sweep leaves as the baseline of a sampled key does not depend on earlier baselines. */
  lemma {:induction false} BaselineForgets(p: Baselines, q: Baselines, ss: seq<Sample>, k: Key)
    requires k in Keys(ss)
    ensures k in Baseline(p, ss) && Look(Baseline(p, ss), k) == Look(Baseline(q, ss), k)
    decreases |ss|
  {
    var n := |ss| - 1;
    var s :| s in ss && s.key == k;
    if ss[n].key != k {
      assert s in ss[..n];
      BaselineForgets(p, q, ss[..n], k);
    }
  }

  lemma {:induction false} BaselineKeys(p: Baselines, ss: seq<Sample>)
    ensures forall k :: k in Keys(ss) ==> k in Baseline(p, ss)
  {
    forall k | k in Keys(ss) ensures k in Baseline(p, ss) {
      BaselineForgets(p, p, ss, k);
    }
  }

  /** A repeated sweep leaves the same baselines, so every further repetition exports the same again. */
  lemma RepeatKeepsBaselines(p: Baselines, ss: seq<Sample>)
    ensures Remembered(Remembered(p, ss), ss) == Remembered(p, ss)
  {
    var r := Remembered(p, ss);
    BaselineKeys(p, ss);
    BaselineKeys(r, ss);
    forall k | k in Keys(ss) ensures Baseline(r, ss)[k] == Baseline(p, ss)[k] {
      BaselineForgets(p, r, ss, k);
    }
  }

  lemma RepeatStartsWhereItEnds(p: Baselines, ss: seq<Sample>, k: Key)
    requires k in Keys(ss)
    ensures var r := Remembered(p, ss); At(r, ss, k, 0).Some? && At(r, ss, k, 0) == At(r, ss, k, |ss|)
  {
    var r := Remembered(p, ss);
    BaselineForgets(p, r, ss, k);
    assert ss[..0] == [] && ss[..|ss|] == ss;
  }

  lemma SilentMeansAgreement(p: Baselines, ss: seq<Sample>, k: Key, i: nat)
    requires i < |ss| && ss[i].key == k && Silent(Remembered(p, ss), ss)
    ensures Some(ss[i].cur) == At(Remembered(p, ss), ss, k, |ss|)
  {
    var r := Remembered(p, ss);
    assert ss[i] in ss;
    RepeatStartsWhereItEnds(p, ss, k);
    AtNext(r, ss, k, i);
    var last := At(r, ss, k, |ss|).value;
    if Zero(last) {
      ZeroStays(r, ss, k, 0, i + 1);
      SameWhenZero(ss[i].cur, last);
    } else {
      NonZeroWasAlways(r, ss, k, i + 1);
    }
  }

  /** After a sample of the key the value compared with is one of the key's. */
  lemma {:induction false} LastValue(prev: Baselines, ss: seq<Sample>, k: Key, n: nat, i: nat)
    requires i < n <= |ss| && ss[i].key == k && KeysAgree(ss)
    ensures At(prev, ss, k, n) == Some(ss[i].cur)
    decreases n
  {
    AtNext(prev, ss, k, n - 1);
    if ss[n - 1].key != k {
      LastValue(prev, ss, k, n - 1, i);
    }
  }

  lemma {:induction false} AtHolds(prev: Baselines, ss: seq<Sample>, k: Key, n: nat, v: Stats)
    requires n <= |ss| && KeysAgree(ss) && At(prev, ss, k, 0) == Some(v)
    requires forall i :: 0 <= i < |ss| && ss[i].key == k ==> ss[i].cur == v
    ensures At(prev, ss, k, n) == Some(v)
  {
    if n > 0 {
      AtHolds(prev, ss, k, n - 1, v);
      AtNext(prev, ss, k, n - 1);
    }
  }

  lemma AgreementMeansSilent(p: Baselines, ss: seq<Sample>, i: nat)
    requires i < |ss| && KeysAgree(ss)
    ensures Zero(DeltaAt(Remembered(p, ss), ss, i))
  {
    var r, k, v := Remembered(p, ss), ss[i].key, ss[i].cur;
    assert ss[i] in ss;
    RepeatStartsWhereItEnds(p, ss, k);
    LastValue(r, ss, k, |ss|, i);
    AtHolds(r, ss, k, i, v);
  }

  /**
  A sweep over the same samples as the sweep before, that is without any traffic,
  exports nothing exactly if samples under one key agree.
  */
  lemma RepeatIsSilentIff(p: Baselines, ss: seq<Sample>)
    ensures var r := Remembered(p, ss);
            Increase(r, ss, All, Packets) == 0 && Increase(r, ss, All, Bytes) == 0 <==> KeysAgree(ss)
  {
    var r := Remembered(p, ss);
    SilentIff(r, ss);
    if Silent(r, ss) {
      forall i, j | 0 <= i < |ss| && 0 <= j < |ss| && ss[i].key == ss[j].key ensures ss[i].cur == ss[j].cur {
        SilentMeansAgreement(p, ss, ss[i].key, i);
        SilentMeansAgreement(p, ss, ss[i].key, j);
      }
    }
    if KeysAgree(ss) {
      forall i | 0 <= i < |ss| ensures Zero(DeltaAt(r, ss, i)) {
        AgreementMeansSilent(p, ss, i);
      }
    }
  }

  /** The exported value of a group after `n` more sweeps over the same samples. */
  function Repeated(prev: Baselines, value: nat, ss: seq<Sample>, g: Group, u: Unit, n: nat): (Baselines, nat) {
    if n == 0 then (prev, value)
    else
      var h := Repeated(prev, value, ss, g, u, n - 1);
      (Remembered(h.0, ss), Raised(false, h.1, Increase(h.0, ss, g, u)))
  }

  /** Every repetition exports the same again, so without traffic the total grows without bound unless the keys agree. */
  lemma {:induction false} RepeatsAddUp(p: Baselines, value: nat, ss: seq<Sample>, g: Group, u: Unit, n: nat)
    ensures var r := Remembered(p, ss);
            Repeated(r, value, ss, g, u, n) == (r, value + n * Increase(r, ss, g, u))
  {
    if n > 0 {
      RepeatsAddUp(p, value, ss, g, u, n - 1);
      RepeatKeepsBaselines(p, ss);
      OnceMore(n, Increase(Remembered(p, ss), ss, g, u));
    }
  }

  lemma OnceMore(n: nat, x: nat)
    requires n > 0
    ensures n * x == (n - 1) * x + x
  {
  }

  // ------------------------------------------------------------------------ input

  /** Two rules for one service that differ in their path and share an end point, with counters 100 and 10. */
  function TwoPaths(e: Ep): seq<Rule> {
    [Rule("10.0.0.1", 80, 0, "/a", 0, "tcp", "web", [e.(counters := Some(Stats(100, 100)))]),
     Rule("10.0.0.1", 80, 0, "/b", 0, "tcp", "web", [e.(counters := Some(Stats(10, 10)))])]
  }

  lemma TwoPathsSamples(e: Ep)
    ensures var k := KeyOf(TwoPaths(e)[0], e);
            Samples(TwoPaths(e)) == [Sample(k, Named("web"), Stats(100, 100)), Sample(k, Named("web"), Stats(10, 10))]
  {
    var r := TwoPaths(e);
    assert r[..1] == [r[0]] && r[..1][..0] == [];
    assert r[0].eps[..0] == [] && r[1].eps[..0] == [];
    assert KeyOf(r[0], r[0].eps[0]) == KeyOf(r[1], r[1].eps[0]) == KeyOf(r[0], e);
    assert RuleSamples(r[0], r[0].eps) == [Sample(KeyOf(r[0], e), Named("web"), Stats(100, 100))];
    assert RuleSamples(r[1], r[1].eps) == [Sample(KeyOf(r[0], e), Named("web"), Stats(10, 10))];
    assert Samples([r[0]]) == [] + RuleSamples(r[0], r[0].eps);
  }

  /** Without any traffic each of their sweeps exports 100 packets and leaves everything as it was. */
  lemma SharedKeyExportsPhantoms(p: Baselines, e: Ep)
    ensures var ss := Samples(TwoPaths(e));
            var r := Remembered(p, ss);
            !KeysAgree(ss) && Remembered(r, ss) == r && Increase(r, ss, All, Packets) == 100
  {
    var ss := Samples(TwoPaths(e));
    var r := Remembered(p, ss);
    TwoPathsSamples(e);
    var k := ss[0].key;
    assert ss[0].key == ss[1].key && ss[0].cur != ss[1].cur;
    RepeatKeepsBaselines(p, ss);
    assert ss[..1] == [ss[0]] && ss[..1][..0] == [];
    assert Look(r, k) == Some(Stats(10, 10)) by {
      assert ss[1] in ss;
    }
    assert Increase(r, ss[..1], All, Packets) == 90;
    assert Look(Baseline(r, ss[..1]), k) == Some(Stats(100, 100));
  }
}
