/**
 * Factory reset equals reboot: once it runs, under any pattern of erase
 * failures, the session is the one a boot would build from the flash it left.
 */
module FactoryReset {
  import opened Options
  import opened AbRecords
  import opened Wrap
  import opened TrustedTime
  import opened Attempts
  import opened Session
  import opened SessionShape

  const ALL_READABLE := Readable(true, true, true, true)

  /** The session that `load_from_flash` builds from cold RAM over the same flash, at the same moment. */
  function Reloaded(d: Device): Device {
    LoadFromFlash(d.(ram := ColdRam(d.ram.secret).(rebootRequested := d.ram.rebootRequested)), ALL_READABLE)
  }

  /** What loading builds depends on the flash, the timer and the secret, never on the old session. */
  lemma LoadForgetsTheSession(d: Device, e: Device)
    requires d.flash == e.flash && d.time == e.time
    requires d.ram.secret == e.ram.secret && d.ram.rebootRequested == e.ram.rebootRequested
    requires NoSecrets(d.ram) && NoSecrets(e.ram)
    ensures LoadFromFlash(d, ALL_READABLE).ram == LoadFromFlash(e, ALL_READABLE).ram
    ensures LoadFromFlash(d, ALL_READABLE).time == LoadFromFlash(e, ALL_READABLE).time
    ensures LoadFromFlash(d, ALL_READABLE).flash == d.flash
  {
    hide CountFrom, LoadFloor;
  }

  lemma LoadTwice(d: Device)
    ensures LoadFloor(LoadFloor(d.time, true), true) == LoadFloor(d.time, true)
    ensures LoadFromFlash(d, ALL_READABLE).time == LoadFloor(d.time, true)
    ensures LoadFromFlash(d, ALL_READABLE).ram.secret == d.ram.secret
    ensures LoadFromFlash(d, ALL_READABLE).ram.rebootRequested == d.ram.rebootRequested
    ensures LoadFromFlash(d, ALL_READABLE).flash == d.flash
  {
    hide CountFrom;
  }

  /** Loading once more, after a load, changes nothing. */
  lemma LoadIsIdempotent(d: Device)
    requires NoSecrets(d.ram)
    ensures Reloaded(LoadFromFlash(d, ALL_READABLE)).ram == LoadFromFlash(d, ALL_READABLE).ram
    ensures Reloaded(LoadFromFlash(d, ALL_READABLE)).time == LoadFromFlash(d, ALL_READABLE).time
  {
    hide CountFrom, LoadFloor, LoadFromFlash;
    LoadTwice(d);
    var loaded := LoadFromFlash(d, ALL_READABLE);
    var cold := loaded.(ram := ColdRam(loaded.ram.secret).(rebootRequested := loaded.ram.rebootRequested));
    LoadTwice(cold);
    LoadForgetsTheSession(cold, d.(time := loaded.time));
    LoadSameFloor(d);
  }

  /** The session part of a load does not look at the floor that is already in RAM. */
  lemma LoadSameFloor(d: Device)
    ensures LoadFromFlash(d.(time := LoadFloor(d.time, true)), ALL_READABLE).ram == LoadFromFlash(d, ALL_READABLE).ram
  {
    hide CountFrom;
  }

  /** A clean sweep leaves nothing behind. */
  lemma CleanMeansEmpty(d: Device)
    requires EraseEverything(d).1
    ensures var e := EraseEverything(d).0;
            && Latest(e.flash.key).None?
            && e.flash.config == BlankPair() && e.time.pair == BlankPair()
            && e.flash.marks == {}
            && Powered(e)
  {
    hide EraseKeyVerified, EraseConfig, EraseFloor, ResetCounter;
    EraseKeyKeeps(DropLiveSecrets(d));
    var (d1, keyGone) := EraseKeyVerified(DropLiveSecrets(d));
    ErasedMeansBlank(d1);
    var (d2, cfgOk) := EraseConfig(d1);
    ErasedMeansBlank(d2);
    var (d3, timeOk) := EraseFloor(d2);
    ErasedMeansBlank(d3);
  }

  lemma ErasedMeansBlank(d: Device)
    ensures var (e, ok) := EraseConfig(d);
            && (ok ==> e.flash.config == BlankPair())
            && e.flash == d.flash.(config := e.flash.config) && e.time.pair == d.time.pair
    ensures var (e, ok) := EraseFloor(d);
            && (ok ==> e.time.pair == BlankPair())
            && e.flash == d.flash
    ensures var (e, ok) := ResetCounter(d);
            && (ok ==> e.flash.marks == {})
            && e.flash == d.flash.(marks := e.flash.marks) && e.time.pair == d.time.pair
  {
  }

  /**
   * Factory reset equals reboot. If power lasts, the session that a factory
   * reset leaves, complete or not, is the one loading builds from the resulting
   * flash; and it reports success only when no key, config or time record
   * remains and the counter is empty.
   */
  lemma FactoryResetEqualsReboot(d: Device)
    ensures var (e, reply) := RunFactoryReset(d, ALL_READABLE);
            && (Powered(e) ==> e.ram == Reloaded(e).ram && e.time == Reloaded(e).time)
            && (reply == Success ==>
                  && Latest(e.flash.key).None? && Latest(e.flash.config).None?
                  && LatestFailClosed(e.time.pair) == Ok(None)
                  && Count(e.flash.marks) == 0
                  && e.ram == ColdRam(d.ram.secret).(rebootRequested := d.ram.rebootRequested))
  {
    hide EraseEverything, LoadFromFlash, CountFrom;
    EraseEverythingKeeps(d);
    var (d1, clean) := EraseEverything(d);
    if clean {
      CleanMeansEmpty(d);
      BlankLoads(RunFactoryReset(d, ALL_READABLE).0);
    } else {
      LoadIsIdempotent(d1);
    }
  }

  lemma BlankLoads(d: Device)
    requires d.flash.config == BlankPair() && d.time.pair == BlankPair() && Latest(d.flash.key).None?
    requires d.flash.marks == {}
    requires d.time.floor.None? && !d.time.unavailable
    requires d.ram == ColdRam(d.ram.secret).(rebootRequested := d.ram.rebootRequested)
    ensures Reloaded(d).ram == d.ram && Reloaded(d).time == d.time
    ensures Count(d.flash.marks) == 0
  {
  }
}
