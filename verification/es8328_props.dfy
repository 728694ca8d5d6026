/**
 * Properties of sequences of ES8328 codec callbacks: the soft-mute bit after
 * init, repeated and undone mutes, and the bias level across suspend and
 * resume.
 */
module Es8328Props {
  import opened Es8328

  /** After a successful init, muting sets DACCONTROL3 to 0x34 and unmuting puts back 0x30. */
  lemma MuteAfterInit(c: Codec, cacheIoStatus: int, pcmStatus: int)
    requires cacheIoStatus >= 0 && pcmStatus >= 0
    ensures var d := Init(c, true, cacheIoStatus, pcmStatus).codec;
      && Read(Mute(d, 1).codec, DACCONTROL3) == 0x34
      && Read(Mute(d, 0).codec, DACCONTROL3) == 0x30
      && Read(Mute(Mute(d, 1).codec, 0).codec, DACCONTROL3) == 0x30
  {
    var d := Init(c, true, cacheIoStatus, pcmStatus).codec;
    assert Read(d, DACCONTROL3) == 0x30;
  }

  /** A byte is determined by its soft-mute bit and its other bits. */
  lemma MuteBitSplit(x: bv8, y: bv8)
    requires x & MUTE_BIT == y & MUTE_BIT && x & !MUTE_BIT == y & !MUTE_BIT
    ensures x == y
  {
  }

  /** Two full caches that read alike are the same cache. */
  lemma SameReads(c: Codec, d: Codec)
    requires Ready(c) && Ready(d)
    requires forall a: Reg :: Read(c, a) == Read(d, a)
    ensures c.cache == d.cache
  {
    var m, n := c.cache.value, d.cache.value;
    assert m.Keys == n.Keys;
    assert forall a :: a in m ==> m[a] == Read(c, a) == Read(d, a) == n[a];
    assert m == n;
  }

  /** Muting (or unmuting) twice leaves the same cache as doing it once. */
  lemma MuteIdempotent(c: Codec, m: int)
    requires Ready(c)
    ensures Mute(Mute(c, m).codec, m).codec.cache == Mute(c, m).codec.cache
  {
    var d := Mute(c, m).codec;
    var e := Mute(d, m).codec;
    MuteBitSplit(Read(e, DACCONTROL3), Read(d, DACCONTROL3));
    SameReads(e, d);
  }

  /** Unmuting a codec that was not muted before restores its cache exactly. */
  lemma MuteThenUnmute(c: Codec)
    requires Ready(c) && Read(c, DACCONTROL3) & MUTE_BIT == 0
    ensures Mute(Mute(c, 1).codec, 0).codec.cache == c.cache
  {
    var e := Mute(Mute(c, 1).codec, 0).codec;
    assert Read(e, DACCONTROL3) == Read(c, DACCONTROL3);
    assert e.cache.value == c.cache.value;
  }

  /** Resuming returns to the level the framework saved before suspending. */
  lemma SuspendResume(c: Codec)
    ensures var s := c.(suspendBias := c.bias);
      Resume(Suspend(s).codec).codec == s
  {
  }
}
