/** kc.mega.move.wave.MovementWaves: the enemy's waves, the subset worth
    surfing, and the set of waves whose shadows changed since the danger
    caches last looked. A wave is addressed by its position in the list,
    which is how the Java code's object references behave. */
module MovementWaves {
  import opened Wrappers
  import opened WaveModel
  import opened Waves
  import opened Seqs

  datatype MovementWaveSet = MovementWaveSet(base: WaveSet, updatedShadowWaves: set<nat>)

  /** The filter of getSurfableWaves. */
  predicate Surfable(statuses: map<nat, int>, w: Wave) {
    w.hasBullet && !w.didHit && w.id in statuses && statuses[w.id] <= BREAKING
  }

  /** The sort key behind getSurfableWaves' comparator, whose sign is that of
      key(w1) - key(w2): sooner breaking first, then stronger bullets first. */
  function SurfKey(w: Wave): real {
    (w.ticksUntilBreak as real) - w.power / 3.01
  }

  /** The surfable waves in list order. */
  function SurfableInOrder(m: MovementWaveSet): (r: seq<Wave>)
    ensures forall i :: 0 <= i < |r| ==> Surfable(m.base.statuses, r[i]) && r[i] in m.base.waves
    ensures forall i :: 0 <= i < |m.base.waves| && Surfable(m.base.statuses, m.base.waves[i]) ==> m.base.waves[i] in r
  {
    Filter(m.base.waves, (w: Wave) => Surfable(m.base.statuses, w))
  }

  /** MovementWaves.getSurfableWaves: the surfable waves, in surfing order. */
  function GetSurfableWaves(m: MovementWaveSet): (r: seq<Wave>)
    ensures SortedBy(r, SurfKey)
    ensures multiset(r) == multiset(SurfableInOrder(m))
    ensures forall i :: 0 <= i < |r| ==> Surfable(m.base.statuses, r[i]) && r[i] in m.base.waves
    ensures forall i :: 0 <= i < |m.base.waves| && Surfable(m.base.statuses, m.base.waves[i]) ==> m.base.waves[i] in r
  {
    var candidates := SurfableInOrder(m);
    var r := SortByKey(candidates, SurfKey);
    SameElements(candidates, r);
    r
  }

  lemma SameElements(a: seq<Wave>, b: seq<Wave>)
    requires multiset(a) == multiset(b)
    ensures forall i :: 0 <= i < |a| ==> a[i] in b
    ensures forall i :: 0 <= i < |b| ==> b[i] in a
  {
    forall i | 0 <= i < |a| ensures a[i] in b {
      assert a[i] in multiset(a);
    }
    forall i | 0 <= i < |b| ensures b[i] in a {
      assert b[i] in multiset(b);
    }
  }

  /** A list already in surfing order comes back in the same order. */
  lemma SurfableOrderIsStable(m: MovementWaveSet)
    requires SortedBy(SurfableInOrder(m), SurfKey)
    ensures GetSurfableWaves(m) == SurfableInOrder(m)
  {
    SortSortedIsIdentity(SurfableInOrder(m), SurfKey);
  }

  /** MovementWaves.noDangerousWavesExist: every surfable wave is virtual. */
  function NoDangerousWavesExist(m: MovementWaveSet): (r: bool)
    ensures r <==> forall i :: 0 <= i < |m.base.waves| && Surfable(m.base.statuses, m.base.waves[i])
                     ==> m.base.waves[i].isVirtual
  {
    var surfable := GetSurfableWaves(m);
    forall i | 0 <= i < |m.base.waves| && Surfable(m.base.statuses, m.base.waves[i])
      ensures m.base.waves[i] in surfable
    {
    }
    forall i :: 0 <= i < |surfable| ==> surfable[i].isVirtual
  }

  /** The addBulletShadows loop of a wave and a bullet terminates by tick `passTick`. */
  predicate ShadowsTerminate(w: Wave, b: Bullet, geo: Geometry, passTick: int)
    requires WellFormed(w)
  {
    FirstShadowTick(w, b) <= passTick && BulletPassed(w, b, passTick, geo)
  }

  /** MovementWaves.addShadows on the wave at position k: the wave takes the
      bullet's shadow, and it joins updatedShadowWaves exactly when the shadow
      changed something. */
  function AddShadows(m: MovementWaveSet, k: nat, b: Bullet, geo: Geometry, passTick: int): (r: MovementWaveSet)
    requires k < |m.base.waves| && WellFormed(m.base.waves[k])
    requires ShadowsTerminate(m.base.waves[k], b, geo, passTick)
    ensures var res := AddBulletShadowsToWave(m.base.waves[k], b, geo, passTick);
            && r.base == m.base.(waves := m.base.waves[k := res.1])
            && r.updatedShadowWaves == if res.0 then m.updatedShadowWaves + {m.base.waves[k].id}
                                       else m.updatedShadowWaves
    ensures r.updatedShadowWaves - m.updatedShadowWaves <= {m.base.waves[k].id}
    ensures r.base.waves[k].shadows != m.base.waves[k].shadows ==> m.base.waves[k].id in r.updatedShadowWaves
  {
    var res := AddBulletShadowsToWave(m.base.waves[k], b, geo, passTick);
    MovementWaveSet(m.base.(waves := m.base.waves[k := res.1]),
                    if res.0 then m.updatedShadowWaves + {m.base.waves[k].id} else m.updatedShadowWaves)
  }

  /** addShadows as written, with the always-true result of the as-written
      addBulletShadows: every call marks the wave, so the danger caches of
      every bullet wave are rebuilt whenever a bullet is fired. */
  function AddShadowsAsWritten(m: MovementWaveSet, k: nat, b: Bullet, geo: Geometry, passTick: int): (r: MovementWaveSet)
    requires k < |m.base.waves| && WellFormed(m.base.waves[k])
    requires ShadowsTerminate(m.base.waves[k], b, geo, passTick)
    ensures |r.base.waves| == |m.base.waves|
    ensures r.base == AddShadows(m, k, b, geo, passTick).base
  {
    var w := m.base.waves[k];
    var res := AddBulletShadowsAsWritten(w, b, geo, passTick, w.shadows);
    MovementWaveSet(m.base.(waves := m.base.waves[k := w.(shadows := res.shadows, shadow := res.shadow)]),
                    if res.changed then m.updatedShadowWaves + {w.id} else m.updatedShadowWaves)
  }

  lemma AddShadowsAsWrittenAlwaysMarks(m: MovementWaveSet, k: nat, b: Bullet, geo: Geometry, passTick: int)
    requires k < |m.base.waves| && WellFormed(m.base.waves[k])
    requires ShadowsTerminate(m.base.waves[k], b, geo, passTick)
    ensures m.base.waves[k].id in AddShadowsAsWritten(m, k, b, geo, passTick).updatedShadowWaves
  {
    AddBulletShadowsAsWrittenAlwaysTrue(m.base.waves[k], b, geo, passTick, m.base.waves[k].shadows);
  }
}
