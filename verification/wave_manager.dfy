/** kc.mega.shared.WaveManager: our waves (whose bullets cast shadows) and the
    enemy's waves (which receive them), kept in step on the events that
    create or destroy bullets. */
module WaveManagers {
  import opened Wrappers
  import opened WaveModel
  import opened Waves
  import opened Ranges
  import opened MovementWaves
  import opened Seqs

  datatype WaveManager = WaveManager(aimWaves: WaveSet, movementWaves: MovementWaveSet)

  /** The tick by which each bullet has passed each wave: the Java loops run
      until that happens, and this bound is what makes them finite here. */
  type PassTicks = (nat, Bullet) -> int

  /** WaveManager.onRoundStart: both wave lists are emptied. */
  function OnRoundStart(m: WaveManager): (r: WaveManager)
    ensures |r.aimWaves.waves| == 0 && |r.movementWaves.base.waves| == 0
    ensures r.movementWaves.updatedShadowWaves == m.movementWaves.updatedShadowWaves
  {
    WaveManager(Clear(m.aimWaves), m.movementWaves.(base := Clear(m.movementWaves.base)))
  }

  /** Our aim waves carry their bullet exactly while they still have one. */
  predicate AimBulletsPresent(aim: WaveSet) {
    forall i :: 0 <= i < |aim.waves| && aim.waves[i].hasBullet ==> aim.waves[i].bullet.Some?
  }

  /** AimWaves.getBullets: the bullets of our bullet waves, in list order. */
  function GetBullets(aim: WaveSet): (r: seq<Bullet>)
    requires AimBulletsPresent(aim)
    ensures |r| == |GetBulletWaves(aim)|
    ensures forall i :: 0 <= i < |r| ==> Some(r[i]) == GetBulletWaves(aim)[i].bullet
  {
    var ws := GetBulletWaves(aim);
    seq(|ws|, i requires 0 <= i < |ws| => ws[i].bullet.value)
  }

  /** Every bullet passes the wave in finite time. */
  predicate AllTerminate(w: Wave, bullets: seq<Bullet>, geo: Geometry, passTick: PassTicks)
    requires WellFormed(w)
  {
    forall j :: 0 <= j < |bullets| ==> ShadowsTerminate(w, bullets[j], geo, passTick(w.id, bullets[j]))
  }

  /** The addShadows calls of one wave for a list of bullets, in order, from
      shadows `s` and precise shadow `shadow`: the shadows after all of them,
      and whether any call reported a change. */
  function AddAllShadows(w: Wave, bullets: seq<Bullet>, geo: Geometry, passTick: PassTicks,
                         s: seq<real>, shadow: Option<Range>): (r: ShadowResult)
    requires WellFormed(w) && |s| == NBINS && AllTerminate(w, bullets, geo, passTick)
    ensures |r.shadows| == NBINS
    ensures !r.changed ==> r.shadows == s
    ensures InUnit(s) ==> InUnit(r.shadows) && forall i :: 0 <= i < NBINS ==> s[i] <= r.shadows[i]
    decreases |bullets|
  {
    if |bullets| == 0 then ShadowResult(false, s, shadow)
    else
      var first := AddBulletShadows(w, bullets[0], geo, passTick(w.id, bullets[0]), s, shadow);
      assert AllTerminate(w, bullets[1..], geo, passTick) by {
        forall j | 0 <= j < |bullets[1..]| ensures bullets[1..][j] == bullets[j + 1] { }
      }
      var rest := AddAllShadows(w, bullets[1..], geo, passTick, first.shadows, first.shadow);
      ShadowResult(first.changed || rest.changed, rest.shadows, rest.shadow)
  }

  /** A wave's shadows after a bullet: unchanged unless it is a bullet wave. */
  function Shadowed(w: Wave, b: Bullet, geo: Geometry, passTick: PassTicks): (r: (bool, Wave))
    requires WellFormed(w)
    requires w.hasBullet ==> ShadowsTerminate(w, b, geo, passTick(w.id, b))
  {
    if w.hasBullet then AddBulletShadowsToWave(w, b, geo, passTick(w.id, b)) else (false, w)
  }

  /** Our bullet `b` passes every enemy bullet wave in finite time. */
  predicate PassesAll(ws: seq<Wave>, b: Bullet, geo: Geometry, passTick: PassTicks)
    requires AllWellFormed(ws)
  {
    forall i :: 0 <= i < |ws| && ws[i].hasBullet ==> ShadowsTerminate(ws[i], b, geo, passTick(ws[i].id, b))
  }

  /** The ids of the first `n` waves on which `b` casts a new shadow. */
  function ChangedIds(ws: seq<Wave>, n: nat, b: Bullet, geo: Geometry, passTick: PassTicks): set<nat>
    requires n <= |ws| && AllWellFormed(ws) && PassesAll(ws, b, geo, passTick)
  {
    set j | 0 <= j < n && Shadowed(ws[j], b, geo, passTick).0 :: ws[j].id
  }

  lemma ChangedIdsStep(ws: seq<Wave>, n: nat, b: Bullet, geo: Geometry, passTick: PassTicks)
    requires n < |ws| && AllWellFormed(ws) && PassesAll(ws, b, geo, passTick)
    ensures ChangedIds(ws, n + 1, b, geo, passTick) ==
            ChangedIds(ws, n, b, geo, passTick) + if Shadowed(ws[n], b, geo, passTick).0 then {ws[n].id} else {}
  {
  }

  /** WaveManager.onFire: our new bullet casts its shadow on every enemy bullet
      wave; exactly the waves whose shadows changed are marked. */
  method OnFire(m: WaveManager, b: Bullet, geo: Geometry, passTick: PassTicks) returns (r: WaveManager)
    requires AllWellFormed(m.movementWaves.base.waves)
    requires PassesAll(m.movementWaves.base.waves, b, geo, passTick)
    ensures r.aimWaves == m.aimWaves
    ensures r.movementWaves.base.statuses == m.movementWaves.base.statuses
    ensures |r.movementWaves.base.waves| == |m.movementWaves.base.waves|
    ensures forall i :: 0 <= i < |m.movementWaves.base.waves| ==>
              r.movementWaves.base.waves[i] == Shadowed(m.movementWaves.base.waves[i], b, geo, passTick).1
    ensures forall i :: 0 <= i < |m.movementWaves.base.waves| && !m.movementWaves.base.waves[i].hasBullet ==>
              r.movementWaves.base.waves[i] == m.movementWaves.base.waves[i]
    ensures r.movementWaves.updatedShadowWaves == m.movementWaves.updatedShadowWaves +
              ChangedIds(m.movementWaves.base.waves, |m.movementWaves.base.waves|, b, geo, passTick)
  {
    var ws := m.movementWaves.base.waves;
    var mv := m.movementWaves;
    var i := 0;
    while i < |ws|
      invariant 0 <= i <= |ws|
      invariant mv.base.statuses == m.movementWaves.base.statuses
      invariant |mv.base.waves| == |ws|
      invariant forall j :: 0 <= j < i ==> mv.base.waves[j] == Shadowed(ws[j], b, geo, passTick).1
      invariant forall j :: i <= j < |ws| ==> mv.base.waves[j] == ws[j]
      invariant mv.updatedShadowWaves == m.movementWaves.updatedShadowWaves + ChangedIds(ws, i, b, geo, passTick)
    {
      ChangedIdsStep(ws, i, b, geo, passTick);
      if ws[i].hasBullet {
        mv := AddShadows(mv, i, b, geo, passTick(ws[i].id, b));
      }
      i := i + 1;
    }
    r := m.(movementWaves := mv);
  }

  /** WaveManager.onEnemyFire: all our bullets cast their shadows on the new
      enemy wave at position k, and on no other wave; the wave is marked when
      one of them changed its shadows. */
  function OnEnemyFire(m: WaveManager, k: nat, geo: Geometry, passTick: PassTicks): (r: WaveManager)
    requires AimBulletsPresent(m.aimWaves)
    requires k < |m.movementWaves.base.waves| && WellFormed(m.movementWaves.base.waves[k])
    requires AllTerminate(m.movementWaves.base.waves[k], GetBullets(m.aimWaves), geo, passTick)
    ensures r.aimWaves == m.aimWaves
    ensures r.movementWaves.base.statuses == m.movementWaves.base.statuses
    ensures |r.movementWaves.base.waves| == |m.movementWaves.base.waves|
    ensures forall i :: 0 <= i < |m.movementWaves.base.waves| && i != k ==>
              r.movementWaves.base.waves[i] == m.movementWaves.base.waves[i]
    ensures var w := m.movementWaves.base.waves[k];
            var res := AddAllShadows(w, GetBullets(m.aimWaves), geo, passTick, w.shadows, w.shadow);
            r.movementWaves.base.waves[k] == w.(shadows := res.shadows, shadow := res.shadow)
    ensures InUnit(m.movementWaves.base.waves[k].shadows) ==> InUnit(r.movementWaves.base.waves[k].shadows)
    ensures r.movementWaves.updatedShadowWaves - m.movementWaves.updatedShadowWaves <= {m.movementWaves.base.waves[k].id}
    ensures r.movementWaves.base.waves[k].shadows != m.movementWaves.base.waves[k].shadows ==>
              m.movementWaves.base.waves[k].id in r.movementWaves.updatedShadowWaves
  {
    var w := m.movementWaves.base.waves[k];
    var res := AddAllShadows(w, GetBullets(m.aimWaves), geo, passTick, w.shadows, w.shadow);
    var mv := m.movementWaves;
    m.(movementWaves := MovementWaveSet(mv.base.(waves := mv.base.waves[k := w.(shadows := res.shadows, shadow := res.shadow)]),
                                         if res.changed then mv.updatedShadowWaves + {w.id} else mv.updatedShadowWaves))
  }

  /** The first `i` waves of `ws` have taken bullet `b`'s shadow as with the
      correction, the rest are untouched, and exactly the bullet waves among
      the first `i` have been added to the marks of `m`. */
  predicate MarkedAllUpTo(ws: seq<Wave>, m: MovementWaveSet, mv: MovementWaveSet, b: Bullet, geo: Geometry,
                          passTick: PassTicks, i: nat)
    requires AllWellFormed(ws) && PassesAll(ws, b, geo, passTick) && i <= |ws|
  {
    && mv.base.statuses == m.base.statuses
    && |mv.base.waves| == |ws|
    && (forall j :: 0 <= j < i ==> mv.base.waves[j] == Shadowed(ws[j], b, geo, passTick).1)
    && (forall j :: i <= j < |ws| ==> mv.base.waves[j] == ws[j])
    && mv.updatedShadowWaves == m.updatedShadowWaves + BulletWaveIds(ws, i)
  }

  /** One as-written addShadows call on bullet wave `i` keeps MarkedAllUpTo
      one wave further. */
  lemma MarkedAllShadowStep(ws: seq<Wave>, m: MovementWaveSet, mv: MovementWaveSet, b: Bullet, geo: Geometry,
                            passTick: PassTicks, i: nat)
    requires AllWellFormed(ws) && PassesAll(ws, b, geo, passTick) && i < |ws| && ws[i].hasBullet
    requires MarkedAllUpTo(ws, m, mv, b, geo, passTick, i)
    ensures MarkedAllUpTo(ws, m, AddShadowsAsWritten(mv, i, b, geo, passTick(ws[i].id, b)), b, geo, passTick, i + 1)
  {
    BulletWaveIdsStep(ws, i);
    var w := ws[i];
    assert mv.base.waves[i] == w;
    AddShadowsAsWrittenAlwaysMarks(mv, i, b, geo, passTick(w.id, b));
    assert Shadowed(w, b, geo, passTick).1 == AddBulletShadowsToWave(w, b, geo, passTick(w.id, b)).1;
  }

  /** Wave `i` is not a bullet wave: nothing to do. */
  lemma MarkedAllSkipStep(ws: seq<Wave>, m: MovementWaveSet, mv: MovementWaveSet, b: Bullet, geo: Geometry,
                          passTick: PassTicks, i: nat)
    requires AllWellFormed(ws) && PassesAll(ws, b, geo, passTick) && i < |ws| && !ws[i].hasBullet
    requires MarkedAllUpTo(ws, m, mv, b, geo, passTick, i)
    ensures MarkedAllUpTo(ws, m, mv, b, geo, passTick, i + 1)
  {
    BulletWaveIdsStep(ws, i);
  }

  /** WaveManager.onFire AS WRITTEN, on top of addShadows as written: the
      shadows come out as with the correction, but every enemy bullet wave is
      marked, whether or not the new bullet shadows it. */
  method OnFireAsWritten(m: WaveManager, b: Bullet, geo: Geometry, passTick: PassTicks) returns (r: WaveManager)
    requires AllWellFormed(m.movementWaves.base.waves)
    requires PassesAll(m.movementWaves.base.waves, b, geo, passTick)
    ensures r.aimWaves == m.aimWaves
    ensures r.movementWaves.base.statuses == m.movementWaves.base.statuses
    ensures |r.movementWaves.base.waves| == |m.movementWaves.base.waves|
    ensures forall i :: 0 <= i < |m.movementWaves.base.waves| ==>
              r.movementWaves.base.waves[i] == Shadowed(m.movementWaves.base.waves[i], b, geo, passTick).1
    ensures r.movementWaves.updatedShadowWaves == m.movementWaves.updatedShadowWaves +
              BulletWaveIds(m.movementWaves.base.waves, |m.movementWaves.base.waves|)
  {
    var ws := m.movementWaves.base.waves;
    var mv := m.movementWaves;
    var i := 0;
    while i < |ws|
      invariant 0 <= i <= |ws|
      invariant MarkedAllUpTo(ws, m.movementWaves, mv, b, geo, passTick, i)
    {
      if ws[i].hasBullet {
        MarkedAllShadowStep(ws, m.movementWaves, mv, b, geo, passTick, i);
        mv := AddShadowsAsWritten(mv, i, b, geo, passTick(ws[i].id, b));
      } else {
        MarkedAllSkipStep(ws, m.movementWaves, mv, b, geo, passTick, i);
      }
      i := i + 1;
    }
    r := m.(movementWaves := mv);
  }

  /** AddAllShadows with the as-written result of addBulletShadows: a call
      reports a change whenever some tick cast no shadow. */
  function AddAllShadowsAsWritten(w: Wave, bullets: seq<Bullet>, geo: Geometry, passTick: PassTicks,
                                  s: seq<real>, shadow: Option<Range>): (r: ShadowResult)
    requires WellFormed(w) && |s| == NBINS && AllTerminate(w, bullets, geo, passTick)
    ensures r.changed <==> |bullets| > 0
    decreases |bullets|
  {
    if |bullets| == 0 then ShadowResult(false, s, shadow)
    else
      var b := bullets[0];
      var first := ShadowTicks(w, b, geo, FirstShadowTick(w, b), passTick(w.id, b), s, shadow);
      assert AllTerminate(w, bullets[1..], geo, passTick) by {
        forall j | 0 <= j < |bullets[1..]| ensures bullets[1..][j] == bullets[j + 1] { }
      }
      var rest := AddAllShadowsAsWritten(w, bullets[1..], geo, passTick, first.shadows, first.shadow);
      ShadowResult(first.tickWithoutShadow || rest.changed, rest.shadows, rest.shadow)
  }

  /** Only the result flag differs: the shadows are those of AddAllShadows. */
  lemma {:induction false} AddAllShadowsAsWrittenSameShadows(w: Wave, bullets: seq<Bullet>, geo: Geometry,
                                                             passTick: PassTicks, s: seq<real>, shadow: Option<Range>)
    requires WellFormed(w) && |s| == NBINS && AllTerminate(w, bullets, geo, passTick)
    ensures var a := AddAllShadowsAsWritten(w, bullets, geo, passTick, s, shadow);
            var c := AddAllShadows(w, bullets, geo, passTick, s, shadow);
            a.shadows == c.shadows && a.shadow == c.shadow
    decreases |bullets|
  {
    if |bullets| > 0 {
      var b := bullets[0];
      var first := ShadowTicks(w, b, geo, FirstShadowTick(w, b), passTick(w.id, b), s, shadow);
      assert AddBulletShadows(w, b, geo, passTick(w.id, b), s, shadow).shadows == first.shadows;
      assert AddBulletShadows(w, b, geo, passTick(w.id, b), s, shadow).shadow == first.shadow;
      assert AllTerminate(w, bullets[1..], geo, passTick) by {
        forall j | 0 <= j < |bullets[1..]| ensures bullets[1..][j] == bullets[j + 1] { }
      }
      AddAllShadowsAsWrittenSameShadows(w, bullets[1..], geo, passTick, first.shadows, first.shadow);
    }
  }

  /** WaveManager.onEnemyFire AS WRITTEN: the new wave is marked whenever we
      have a bullet in the air, shadowed or not. */
  function OnEnemyFireAsWritten(m: WaveManager, k: nat, geo: Geometry, passTick: PassTicks): (r: WaveManager)
    requires AimBulletsPresent(m.aimWaves)
    requires k < |m.movementWaves.base.waves| && WellFormed(m.movementWaves.base.waves[k])
    requires AllTerminate(m.movementWaves.base.waves[k], GetBullets(m.aimWaves), geo, passTick)
    ensures r.aimWaves == m.aimWaves
    ensures m.movementWaves.base.waves[k].id in r.movementWaves.updatedShadowWaves <==>
              m.movementWaves.base.waves[k].id in m.movementWaves.updatedShadowWaves || |GetBullets(m.aimWaves)| > 0
  {
    var w := m.movementWaves.base.waves[k];
    var res := AddAllShadowsAsWritten(w, GetBullets(m.aimWaves), geo, passTick, w.shadows, w.shadow);
    var mv := m.movementWaves;
    m.(movementWaves := MovementWaveSet(mv.base.(waves := mv.base.waves[k := w.(shadows := res.shadows, shadow := res.shadow)]),
                                         if res.changed then mv.updatedShadowWaves + {w.id} else mv.updatedShadowWaves))
  }

  /** The two versions of onEnemyFire leave the same waves; they differ only
      in which waves are marked. */
  lemma OnEnemyFireAsWrittenSameWaves(m: WaveManager, k: nat, geo: Geometry, passTick: PassTicks)
    requires AimBulletsPresent(m.aimWaves)
    requires k < |m.movementWaves.base.waves| && WellFormed(m.movementWaves.base.waves[k])
    requires AllTerminate(m.movementWaves.base.waves[k], GetBullets(m.aimWaves), geo, passTick)
    ensures OnEnemyFireAsWritten(m, k, geo, passTick).movementWaves.base == OnEnemyFire(m, k, geo, passTick).movementWaves.base
  {
    var w := m.movementWaves.base.waves[k];
    AddAllShadowsAsWrittenSameShadows(w, GetBullets(m.aimWaves), geo, passTick, w.shadows, w.shadow);
  }


  function Zeros(): (z: seq<real>)
    ensures |z| == NBINS && InUnit(z)
  {
    seq(NBINS, _ => 0.0)
  }

  /** The rebuild onBulletHitBullet performs on one enemy wave: shadows reset
      to zero, then every remaining bullet's shadow cast again. */
  function Rebuilt(w: Wave, bullets: seq<Bullet>, geo: Geometry, passTick: PassTicks): (r: Wave)
    requires WellFormed(w) && AllTerminate(w, bullets, geo, passTick)
    ensures WellFormed(r) && InUnit(r.shadows)
    ensures r == w.(shadows := r.shadows, shadow := r.shadow)
  {
    var res := AddAllShadows(w, bullets, geo, passTick, Zeros(), w.shadow);
    w.(shadows := res.shadows, shadow := res.shadow)
  }

  /** Every remaining bullet of ours passes every enemy bullet wave. */
  predicate AllPassAll(ws: seq<Wave>, bullets: seq<Bullet>, geo: Geometry, passTick: PassTicks) {
    forall i :: 0 <= i < |ws| ==> Rebuildable(ws[i], bullets, geo, passTick)
  }

  predicate Rebuildable(w: Wave, bullets: seq<Bullet>, geo: Geometry, passTick: PassTicks) {
    WellFormed(w) && (w.hasBullet ==> AllTerminate(w, bullets, geo, passTick))
  }

  /** What onBulletHitBullet leaves of one enemy wave. */
  function RebuildIfBullet(w: Wave, bullets: seq<Bullet>, geo: Geometry, passTick: PassTicks): (r: Wave)
    requires Rebuildable(w, bullets, geo, passTick)
  {
    if w.hasBullet then Rebuilt(w, bullets, geo, passTick) else w
  }

  /** The loop of onBulletHitBullet before wave `i`: the waves before it are
      rebuilt, the others untouched. */
  predicate RebuiltUpTo(ws: seq<Wave>, waves: seq<Wave>, bullets: seq<Bullet>, geo: Geometry,
                        passTick: PassTicks, i: nat)
    requires AllPassAll(ws, bullets, geo, passTick) && i <= |ws|
  {
    && |waves| == |ws|
    && (forall j :: 0 <= j < i ==> waves[j] == RebuildIfBullet(ws[j], bullets, geo, passTick))
    && (forall j :: i <= j < |ws| ==> waves[j] == ws[j])
  }

  lemma RebuildStep(ws: seq<Wave>, waves: seq<Wave>, bullets: seq<Bullet>, geo: Geometry,
                    passTick: PassTicks, i: nat)
    requires AllPassAll(ws, bullets, geo, passTick) && i < |ws|
    requires RebuiltUpTo(ws, waves, bullets, geo, passTick, i)
    ensures RebuiltUpTo(ws, waves[i := RebuildIfBullet(ws[i], bullets, geo, passTick)], bullets, geo, passTick, i + 1)
  {
  }

  /** The ids of the bullet waves among the first `n`. */
  function BulletWaveIds(ws: seq<Wave>, n: nat): set<nat>
    requires n <= |ws|
  {
    set j | 0 <= j < n && ws[j].hasBullet :: ws[j].id
  }

  lemma BulletWaveIdsStep(ws: seq<Wave>, n: nat)
    requires n < |ws|
    ensures BulletWaveIds(ws, n + 1) == BulletWaveIds(ws, n) + if ws[n].hasBullet then {ws[n].id} else {}
  {
  }

  /** WaveManager.onBulletHitBullet: a bullet is gone, so every enemy bullet
      wave's shadows are rebuilt from zero from our remaining bullets, and every
      such wave is marked as updated. */
  method OnBulletHitBullet(m: WaveManager, geo: Geometry, passTick: PassTicks) returns (r: WaveManager)
    requires AimBulletsPresent(m.aimWaves)
    requires AllPassAll(m.movementWaves.base.waves, GetBullets(m.aimWaves), geo, passTick)
    ensures r.aimWaves == m.aimWaves
    ensures r.movementWaves.base.statuses == m.movementWaves.base.statuses
    ensures |r.movementWaves.base.waves| == |m.movementWaves.base.waves|
    ensures forall i :: 0 <= i < |m.movementWaves.base.waves| ==>
              r.movementWaves.base.waves[i] == RebuildIfBullet(m.movementWaves.base.waves[i], GetBullets(m.aimWaves), geo, passTick)
    ensures forall i :: 0 <= i < |m.movementWaves.base.waves| && !m.movementWaves.base.waves[i].hasBullet ==>
              r.movementWaves.base.waves[i] == m.movementWaves.base.waves[i]
    ensures r.movementWaves.updatedShadowWaves == m.movementWaves.updatedShadowWaves +
              BulletWaveIds(m.movementWaves.base.waves, |m.movementWaves.base.waves|)
  {
    var ws := m.movementWaves.base.waves;
    var bullets := GetBullets(m.aimWaves);
    var waves := ws;
    var updated := m.movementWaves.updatedShadowWaves;
    var i := 0;
    while i < |ws|
      invariant 0 <= i <= |ws|
      invariant RebuiltUpTo(ws, waves, bullets, geo, passTick, i)
      invariant updated == m.movementWaves.updatedShadowWaves + BulletWaveIds(ws, i)
    {
      BulletWaveIdsStep(ws, i);
      if ws[i].hasBullet {
        updated := updated + {ws[i].id};
      }
      RebuildStep(ws, waves, bullets, geo, passTick, i);
      waves := waves[i := RebuildIfBullet(ws[i], bullets, geo, passTick)];
      i := i + 1;
    }
    r := m.(movementWaves := MovementWaveSet(m.movementWaves.base.(waves := waves), updated));
  }
}
