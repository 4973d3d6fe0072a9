# PicoSignet, verified model

PicoSignet is a USB security key that signs SSH certificates. This project
models the logic its guarantees rest on and proves those guarantees for every
input, every run and every reachable state:

- the device session as a step machine over requests, elapsed time, transport
  resets, power losses and reboots, with a fault tape that lets any flash
  operation, key derivation or entropy draw fail or lose power (`Session`, and as
  an object with fields `Hsm`, with the theorems stated of the object in
  `HsmRuns`); who may change what is in `Authority`, and when each request
  succeeds in `Outcomes`;
- the power-fail-safe record pairs, first as slots (`AbRecords`), then as bytes
  with their CRC on NOR flash (`Storage`, `Records`, `Pin`);
- trusted time: the wall clock with its anchor (`Clock`), the persisted floor
  across boots (`TrustedTime`), and the session's refinement of both (`SessionTime`);
- the provisioning of the device secret in one-time-programmable fuses
  (`OtpSecret`, `OtpFuses`);
- Go duration strings (`GoDuration`, `DurationCode`);
- SSH wire format, keys, certificates and request validation (`SshWire`, `Mpint`,
  `PublicKeys`, `OrderedMaps`, `Certificates`, `Validate`, `Issuance`);
- line framing and the host's management firewall (`LineIo`, `SignerLine`).

Loops and objects of the source are methods and classes here. Each is proved
equal to a function or a batch definition, and the theorems are about those.
Check everything with `dafny verify dfyconfig.toml`.

Conventions. Cryptography is symbolic: a KEK is its inputs and a sealed seed
opens exactly under what sealed it. An operation outcome is `Done`, an `Error`
that left the sector untouched, blanked or mangled, a `Cut` with the same
choices, or a cut right after completion. The history of a device is a log of
observations (wrong PINs, erasures, boots, lockouts, certificates), and the run
properties are statements about that log. PINs are byte strings, written with
Dafny's `string`.

Where the code and its promises part, the model follows the code and the
difference is proved: boot reads that fail are taken as absent or zero
(`Lockout.BootRestoresLockoutIffReadable`), sequence numbers wrap at 2^32
(`AbRecords.WrapLosesTheWrite`), two duration terms of 2^63 ns wrap to zero
(`GoDuration.TwoHalvesWrapToZero`), a provisioning whose counter resets fail
starts a new PIN budget over the old attempts and clears the deadline
(`Reprovisioning.ProvisioningRestartsTheBudget`, with the exact condition in
`PinBudget.PinBudgetSinceErasure` and `PinBudget.NextGuessKeepsTheBudgetIff`, and
for the backoff `Backoff.BackoffIsPaidSinceErasure` and
`Reprovisioning.GuessAfterInitComesAtOnce`), and a void write without effect lets the device secret change
(`OtpSecret.SecretCanChange`, with the exact condition in
`OtpSecret.SecretIsStableIff`).

## Model

| member | source | states |
|---|---|---|
| `PinBudget.PinBudgetHolds` | hsm-core/src/dispatch.rs:1063-1147 | In every run from the factory, over any requests, faults, power cuts and reboots, at every moment of the history the wrong PINs evaluated since the counter was last erased or the device last provisioned are at most the retry limit in force |
| `PinBudget.PinBudgetSinceErasure` | hsm-core/src/dispatch.rs:1063-1147 | Counted from erasures of the counter alone, the same bound at every moment of every run unless the account is overdrawn: the last provisioning did not erase the counter and set a limit that the wrong PINs on it had already reached |
| `PinBudget.NextGuessKeepsTheBudgetIff` | hsm-core/src/dispatch.rs:596-615 | That condition is exact: in every reachable locked session the next wrong PIN stays within the limit, counted from erasures alone, if and only if the account is not overdrawn |
| `Reprovisioning.ProvisioningRestartsTheBudget` | hsm-core/src/dispatch.rs:596-615 | The literal bound fails: a run from the factory, with every boot read succeeding, in which a reset and an init fail to erase the counter and two wrong PINs are evaluated with a limit of one, the second without delay |
| `PinBudget.StepBudgeted` | hsm-core/src/dispatch.rs:199-282 | Every event keeps the accounts behind the budget: each evaluated wrong PIN is on the persistent counter, the config names the limit in force, and wherever a PIN could still be evaluated one is left |
| `PinCases.VerifyCases` | hsm-core/src/dispatch.rs:1063-1147 | The only four things `verify_pin` can have done, for every tape of faults: nothing evaluated and at most one attempt spent; opened, with the seed, KEK and salt of the latest record; wrong below the limit; wrong at the limit with the secrets dropped and the key kept, wiped or half wiped |
| `Wiping.LockoutWipesAsConfigured` | hsm-core/src/dispatch.rs:1118-1140 | For every tape, a PIN check that locks out does to the key what the configuration asks: without wipe the copies and the cached public key stay; with wipe it says out of tries only when no record can be read and the cache is empty, reports a flash failure exactly otherwise, and leaves a blank pair when nothing fails |
| `Authority.RequestWipesAsConfigured` | hsm-core/src/dispatch.rs:1118-1140 | The same for whatever request carried the wrong PIN |
| `Outcomes.RightPinResets` | hsm-core/src/dispatch.rs:1108-1112 | Without faults the right PIN is verified, empties the counter, clears the deadline and changes nothing else |
| `Outcomes.WrongPinCosts` | hsm-core/src/dispatch.rs:1113-1145 | Without faults a wrong PIN uses one byte of the counter and is answered with the tries left and min(250 ms * 2^n, 30 s), or at the limit with lockout and, if configured, blank key copies |
| `Outcomes.SecondResetCounts` | hsm-core/src/dispatch.rs:1170-1178 | A counter reset that fails once is tried again |
| `Outcomes.SecondRoundCounts` | hsm-core/src/dispatch.rs:1153-1161 | An erase round that leaves the key readable is followed by another |
| `Lockout.LockoutIsFinal` | hsm-core/src/dispatch.rs:1118-1140 | After any event that locks the device out, power failing inside the wipe included, no sequence of requests, resets, power losses and reboots without physical recovery issues another certificate |
| `Lockout.StepStaysShut` | hsm-core/src/dispatch.rs:273-277 | The closed set behind it, a production config with no key record or a spent counter and no live secret, is kept by every event and issues nothing |
| `Lockout.BootRestoresLockoutIffReadable` | hsm-core/src/dispatch.rs:199-282 | A spent device boots into lockout if and only if its config, key and counter can all be read |
| `Lockout.UnreadableCounterReopensThePin` | hsm-core/src/dispatch.rs:264-272 | The failing family: a boot that cannot read the counter lets a PIN beyond the budget be evaluated |
| `Reprovisioning.UnreadableCounterBeatsTheLimit` | hsm-core/src/dispatch.rs:264-272 | The same reached from the factory: a limit of one, a boot that cannot read the counter, and a second wrong PIN |
| `Backoff.BackoffIsAlwaysPaid` | hsm-core/src/dispatch.rs:1066-1117 | In every run, with wrong PINs numbered since the last counter erasure or provisioning, the one after the i-th is evaluated at least min(250 * 2^(i-1), 30000) ms of powered time after it, counted from that failure or from the latest boot |
| `Backoff.BackoffIsPaidSinceErasure` | hsm-core/src/dispatch.rs:1066-1117 | The same with wrong PINs numbered from erasures alone, with one exception: the first wrong PIN after a provisioning that did not erase the counter, in the same boot |
| `Reprovisioning.GuessAfterInitComesAtOnce` | hsm-core/src/dispatch.rs:556-630 | The exception is always open: after any successful production init in any run a wrong PIN is evaluated at once, and the init counts as the exception exactly if wrong PINs are still on the counter |
| `Backoff.BusyIsExactAndFree` | hsm-core/src/dispatch.rs:1066-1081 | In every reachable state ERR_BUSY is the reply if and only if an attempt is on the counter, the deadline is ahead and the counter can be read; it then changes nothing and reports the exact remaining time, between 1 and 30000 ms |
| `KeyCache.CacheAgreesWithFlash` | hsm-core/src/dispatch.rs:635-720 | In every reachable state an unlocked session's salt, public key and KEK are those of the latest key record and the KEK opens it to the live seed; a locked session caches that record's public key |
| `KeyCache.GenerateKeyCached` | hsm-core/src/dispatch.rs:635-685 | Forced rotation keeps the cached KEK and salt valid for the new record, whatever the flash does |
| `KeyCache.ChangePinKeepsTheSeed` | hsm-core/src/dispatch.rs:853-927 | In every reachable session `changePin` with the right PIN never changes or strands the CA seed: whatever fails or is cut, the latest record is the old one, which opens under the old PIN, or one that opens under the new PIN to the same seed; the new one after success, the old one after a failure without power loss |
| `KeyCache.RebootRestoresTheKey` | hsm-core/src/dispatch.rs:706-731 | In every reachable unlocked session a reboot and an unlock with the current PIN restore the same CA key if and only if the attempts on the counter are below the limit |
| `KeyCache.DevRebootRestoresTheKey` | hsm-core/src/dispatch.rs:243-261 | In every reachable dev session with a key a reboot brings the same key back |
| `FactoryReset.FactoryResetEqualsReboot` | hsm-core/src/dispatch.rs:1023-1051 | Under any pattern of erase failures the session a factory reset leaves is the one loading builds from the resulting flash; success implies no key, config or time record and an empty counter |
| `FactoryReset.LoadForgetsTheSession` | hsm-core/src/dispatch.rs:199-282 | What loading builds depends on flash, timer and device secret only, never on the old session |
| `Authority.EveryEventIsLawful` | hsm-core/src/dispatch.rs:423-473 | In every run and under every fault, the key copies, the config, the floor records and the bootloader flag change only on authority: a wipe at the limit, a key generation that was forced or found no key, an init of a blank device, a proved PIN, or for erasing and rebooting an unprovisioned or dev state, a physical recovery or a PIN that opened the latest record in this request |
| `Authority.SeedChangesOnlyWhenAsked` | hsm-core/src/dispatch.rs:635-693 | In every run the CA seed in the latest record changes only by a wipe, a forced or first key generation, a production init or an authorised reset, never by a change of PIN |
| `Outcomes.GateIsExact` | hsm-core/src/dispatch.rs:991-1022 | Without faults the gate of reset and bootloader opens if and only if the state is unprovisioned or dev, recovery is physical, or the given PIN opens the record behind an open backoff gate; locked out or without a PIN it refuses and changes nothing |
| `Outcomes.ResetSucceedsIff` | hsm-core/src/dispatch.rs:991-1051 | Without faults a reset succeeds if and only if it is confirmed and authorised, and then every record and the counter are blank |
| `Outcomes.BootloaderIff` | hsm-core/src/dispatch.rs:485-518 | The bootloader flag is raised if and only if the gate opens |
| `Outcomes.UnforcedKeepsTheKey` | hsm-core/src/dispatch.rs:635-642 | Without force an existing key is never replaced: refused, and nothing changes |
| `Outcomes.GenerateSucceeds` | hsm-core/src/dispatch.rs:643-693 | Without faults a forced or first generation makes the drawn seed the CA key, in RAM and in the latest record under the session's KEK, salt and mode |
| `Outcomes.LockedGeneratesNothing` | hsm-core/src/dispatch.rs:686-692 | A locked or uninitialised session generates no key |
| `Outcomes.InitProdSucceedsIff` | hsm-core/src/dispatch.rs:556-630 | Without faults a production init succeeds if and only if the device is blank, the PIN has 6 to 64 bytes and the limit is not 0; the config is then as asked, with Argon2 costs 256, 14 and 1 and a default limit of 10 |
| `Outcomes.InitProdStores` | hsm-core/src/dispatch.rs:585-615 | It has stored that config and the drawn seed under the PIN |
| `Outcomes.InitDevSucceedsIff` | hsm-core/src/dispatch.rs:520-555 | Without faults a dev init succeeds if and only if the device is blank and has its secret |
| `Outcomes.OtherModesAreRefused` | hsm-core/src/dispatch.rs:631-632 | Any other mode is refused and changes nothing |
| `Outcomes.UnlockSucceedsIff` | hsm-core/src/dispatch.rs:706-731 | Without faults unlocking succeeds if and only if the session is unlocked already, or locked with an open gate and the right PIN; it then holds the seed, salt and KEK of the record |
| `Outcomes.ChangePinSucceedsIff` | hsm-core/src/dispatch.rs:853-927 | Without faults a change of PIN succeeds if and only if the old PIN is right, the gate open and the new one 6 to 64 bytes; the session stays locked or unlocked as it was |
| `Outcomes.SignsIff` | hsm-core/src/dispatch.rs:371-418 | Without faults a certificate is issued, with the live key, if and only if the session is ready, the clock set and the validity positive and at most 24 hours |
| `Locking.LockedIsSilent` | hsm-core/src/dispatch.rs:733-750 | After a lock, a transport reset, a power loss or a boot of a production device no certificate is issued and no secret is held, over any run without physical recovery, until a PIN opens the record again |
| `Locking.LockDropsSecrets` | hsm-core/src/dispatch.rs:733-750 | Locking a production session always succeeds, leaves no secret and never an unlocked state; any other session is refused |
| `Locking.TransportResetDropsSecrets` | hsm-core/src/dispatch.rs:1199-1213 | A transport reset does the same to a production session, and nothing to any other |
| `SessionShape.SessionStaysConsistent` | hsm-core/src/dispatch.rs:1180-1211 | Over every run: Uninitialized iff no config, DevReady iff Dev, ProdReady iff Prod with a live key (then with KEK and salt), no secret in the locked states, and no `expect` fires on any next request |
| `SessionTime.StepRefinesTime` | hsm-core/src/dispatch.rs:752-817 | Every session event moves the clock, the floor and its records exactly as its time events do |
| `SessionTime.SessionCannotRatchetTime` | hsm-core/src/dispatch.rs:752-817 | Without physical recovery or factory reset the persisted floor never falls, stays within 900 s plus the elapsed seconds per boot, and is written at most (900 + elapsed) / 3600 times in the boot |
| `SessionTime.CertificateWindow` | hsm-core/src/dispatch.rs:395-396 | In every reachable state a certificate starts 300 s before the clock, lasts 300 to 86700 s in all, and its times do not wrap 64 bits |
| `SessionTime.CertificateExpiryBounded` | hsm-core/src/dispatch.rs:371-418 | Without recovery every certificate expires by the boot's starting floor + 1800 + elapsed + 86400 s |
| `TrustedTime.TimeCannotBeRatcheted` | hsm-core/src/dispatch.rs:752-817 | The same bound for the time machine alone, over every run of boots, cuts and setTime outcomes |
| `TrustedTime.FloorNeverFalls` | hsm-core/src/dispatch.rs:780-803 | One step without physical recovery never lowers the persisted floor, also when its write is cut |
| `TrustedTime.ExpiryBounded` | hsm-core/src/dispatch.rs:395-396 | now + validity is at most the boot's starting floor + 1800 + elapsed + 86400 s |
| `TrustedTime.SetTimeIsExact` | hsm-core/src/dispatch.rs:752-817 | Time makes progress: without faults a value that passes is what the clock then reads, and the stored floor becomes the first or physically recovered value, or trusted time when that is 3600 s or more past it; any other value changes nothing |
| `SessionTime.SetTimeMakesProgress` | hsm-core/src/dispatch.rs:752-817 | The same in every reachable session, with the reply: success if and only if the value passes |
| `TrustedTime.CorruptFloorFailsClosed` | hsm-core/src/dispatch.rs:210-229 | A floor that cannot be read, or that no copy holds in sectors that are not blank, stops every setTime |
| `HsmObject.Hsm.CheckPin` | hsm-core/src/dispatch.rs:1063-1147 | The object's `verify_pin` does to the fields what VerifyPin does to a device |
| `HsmObject.Hsm.RefuseWrongPin` | hsm-core/src/dispatch.rs:1113-1145 | The object does what PunishWrongPin does to a device, which `Wiping.LockoutWipesAsConfigured` and `Outcomes.WrongPinCosts` pin down |
| `HsmObject.Hsm.Load` | hsm-core/src/dispatch.rs:199-282 | Rebuilds the session from flash, with unreadable records taken as absent or zero as in the source |
| `HsmObject.Hsm.InitDevice` | hsm-core/src/dispatch.rs:520-555 | Dev init: config first, session state only after the write succeeded |
| `HsmObject.Hsm.InitProduction` | hsm-core/src/dispatch.rs:556-630 | Production init: key record, then config, then a counter reset; a failure between them leaves the session uninitialised |
| `HsmObject.Hsm.Generate` | hsm-core/src/dispatch.rs:635-693 | The object does what HandleGenerateKey does, which `Outcomes.UnforcedKeepsTheKey` and `Outcomes.GenerateSucceeds` pin down |
| `HsmObject.Hsm.UnlockWith` | hsm-core/src/dispatch.rs:706-731 | Unlock by state; the secrets enter RAM only from a verified PIN |
| `HsmObject.Hsm.LockSession` | hsm-core/src/dispatch.rs:733-750 | The object does what HandleLock does, which `Locking.LockDropsSecrets` pins down |
| `HsmObject.Hsm.SetTheTime` | hsm-core/src/dispatch.rs:752-817 | Clock and floor change together, and only after a due floor write succeeded |
| `HsmObject.Hsm.ChangeThePin` | hsm-core/src/dispatch.rs:853-927 | Verifies, re-wraps under a new salt, and adopts the new KEK only after the record is written |
| `HsmObject.Hsm.ResetToFactory` | hsm-core/src/dispatch.rs:991-1051 | The object does what HandleFactoryReset does, which `Outcomes.GateIsExact` and `Outcomes.ResetSucceedsIff` pin down |
| `HsmObject.Hsm.EraseKeyAndVerify` | hsm-core/src/dispatch.rs:1153-1161 | Two erase rounds at most, each read back |
| `HsmObject.Hsm.ResetPinCounter` | hsm-core/src/dispatch.rs:1170-1178 | Two reset tries; the deadline is cleared only by a reset that succeeded |
| `HsmObject.Hsm.RequestBootloader` | hsm-core/src/dispatch.rs:485-518 | The object does what HandleRebootBootloader does, which `Outcomes.GateIsExact` and `Outcomes.BootloaderIff` pin down |
| `HsmObject.Hsm.RelockOnTransportReset` | hsm-core/src/dispatch.rs:1199-1213 | A transport reset drops the secrets of any production session |
| `HsmObject.Hsm.SignKey` | hsm-core/src/dispatch.rs:371-418 | Signing needs a ready state, a live key, a set clock, a valid request and a seeded generator, in this order |
| `HsmObject.Hsm.Happen` | hsm-core/src/dispatch.rs:119-148 | Every event of the device's life does to the object what Step does to a device value |
| `HsmRuns.Operate` | hsm-core/src/dispatch.rs:119-148 | A fresh object that any events happen to: no event goes beyond its authority, its session is consistent and its clock in its window; and if boot reads succeed, the PIN budget was kept and the backoff paid at every moment, counted either way, the caches agree with the flash, and no certificate was issued after a final lockout |
| `HsmRuns.PutRequest` | hsm-core/src/dispatch.rs:423-473 | One request to a consistent object stays within its authority; a lock leaves no secret, an unforced generation spares an existing key, and a wrong PIN at the limit wipes exactly as configured |
| `Wrap.OpensOnlyUnderItsPin` | hsm-core/src/wrap.rs:51-127 | A wrapped seed opens exactly under its PIN, salt and device secret, and a blob with an exchanged type, key, nonce or salt never opens |
| `AbRecords.PairRefinesCell` | hsm-core/src/storage.rs:45-104 | Over every run of fewer than 2^32 - 1 writes, each completed, failed or cut anywhere, the latest record is that of one atomic cell, and valid numbers stay distinct and at least 1 |
| `AbRecords.WriteIsAtomic` | hsm-core/src/storage.rs:91-104 | A write becomes the latest record exactly when it finishes; otherwise the latest record is what it was |
| `AbRecords.NewestIsNeverTheTarget` | hsm-core/src/storage.rs:91-104 | The copy holding the latest record is never the one a write erases |
| `AbRecords.WrapLosesTheWrite` | hsm-core/src/storage.rs:95 | At the end of the number space: a completed write is read back if and only if the highest number was below 2^32 - 1 |
| `AbRecords.EraseExposesOnlyOldCopies` | hsm-core/src/storage.rs:107-110 | Erasing can expose the older copy only, never anything else |
| `AbRecords.MixedRunsKeepOnlySurvivors` | hsm-core/src/storage.rs:91-110 | Over any run of writes and erasures, completed, failed or cut: every valid copy was written completely since the last complete erasure, a completed write is then the latest record, and a failed one changes nothing |
| `Storage.RecordReadsBack` | hsm-core/src/storage.rs:142-169 | Every record written whole parses back to its number and payload |
| `Storage.RecordLayout` | hsm-core/src/storage.rs:171-190 | The record in bytes: UHSM, version 2, number, length, payload, CRC |
| `Storage.CrcCheckValue` | hsm-core/src/storage.rs:165-167 | The CRC is CRC-32/ISO-HDLC: its check value is 0xCBF43926 |
| `Storage.WriteRefinesSlot` | hsm-core/src/storage.rs:171-199 | A one-page record cut or failed anywhere leaves the sector in exactly the slot state its outcome says |
| `Storage.SectorsRefineCell` | hsm-core/src/storage.rs:91-104 | From erased sectors, after any run of cut, failed and completed byte-level writes, the latest parsed payload is that of the last completed write |
| `Storage.SectorsKeepOnlySurvivors` | hsm-core/src/storage.rs:91-110 | The same down to the sector bytes, torn erasures included |
| `Storage.MixedBytesRefineSlots` | hsm-core/src/storage.rs:91-110 | Byte-level runs of writes and erasures are the slot-level runs |
| `Storage.FlashStore.Erase` | hsm-core/src/testhal.rs:196-215 | NOR erase, completed, refused or torn; nothing but that sector changes |
| `Storage.FlashStore.Program` | hsm-core/src/testhal.rs:196-215 | NOR program ANDs the page into the sector, or is refused or torn |
| `Storage.FlashStore.WriteRecord` | hsm-core/src/storage.rs:171-199 | The page loop leaves the complete sector image, or exactly the pages done when an operation failed; oversize payloads change nothing |
| `Storage.FlashStore.ReadLatest` | hsm-core/src/storage.rs:45-60 | Returns the payload of the highest-numbered valid copy |
| `Storage.FlashStore.WriteCopies` | hsm-core/src/storage.rs:91-104 | Writes the lower-numbered copy with the next number and touches no other sector |
| `Storage.FlashStore.EraseBoth` | hsm-core/src/storage.rs:107-110 | The second copy is erased only if the first erase succeeded; no other sector changes |
| `Records.ConfigRoundTrip` | hsm-core/src/storage.rs:234-273 | A configuration decodes from its 15 bytes as it was, and fits one page |
| `Records.BlobRoundTrip` | hsm-core/src/storage.rs:309-347 | A key record decodes from its 109 bytes as it was, and fits one page |
| `Records.BlobBytesAreUnique` | hsm-core/src/storage.rs:320-347 | The bytes of a key record are determined by what they decode to |
| `Records.OldBlobsAreRefused` | hsm-core/src/storage.rs:249-333 | Short records, tags other than 3 and 4, and unknown modes are refused, and nothing else |
| `Records.FloorRoundTrip` | hsm-core/src/dispatch.rs:211-219 | The floor survives its 8-byte two's-complement form over the whole i64 range |
| `Records.LatestConfigSurvives` | hsm-core/src/storage.rs:234-273 | Down to the sector bytes: the configuration a boot decodes is the last one completely written |
| `Pin.CountAttempts` | hsm-core/src/pin.rs:23-31 | The scan returns the length of the leading run of used bytes |
| `Pin.Tick` | hsm-core/src/pin.rs:35-46 | The next byte is used before the new count is returned; a failed program returns no count; a full sector is unchanged |
| `Pin.Reset` | hsm-core/src/pin.rs:49-51 | A completed reset leaves no used byte |
| `Pin.TornTickCounts` | hsm-core/src/pin.rs:35-46 | A tick torn inside its program counts as soon as any bit of its byte is gone, and nothing else is counted |
| `Pin.TornEraseAddsNothing` | hsm-core/src/pin.rs:49-51 | A torn erase never adds an attempt |
| `Attempts.TickCounts` | hsm-core/src/pin.rs:35-46 | Whatever happens to a tick the count never falls, and one that touched the sector raises it |
| `Attempts.BackoffIsCappedExponential` | hsm-core/src/pin.rs:54-61 | The delay is min(250 ms * 2^n, 30 s) for every n |
| `Clock.WallClock.Set` | hsm-core/src/clock.rs:69-98 | Accepts a first value in the plausible range and later values within 900 s of trusted time; a rejected value changes nothing |
| `Clock.RunStaysInWindow` | hsm-core/src/clock.rs:69-98 | After any sequence of accepted and rejected values the clock is within 900 s of the anchor at its last setting |
| `Clock.WindowHolds` | hsm-core/src/clock.rs:100-111 | At any later reading -901 <= now - trusted <= 900, and `now_unix` fits i64 |
| `Clock.AnchorNeverMoves` | hsm-core/src/clock.rs:69-98 | No sequence of values moves the anchor once it is fixed |
| `Clock.AcceptsIff` | hsm-core/src/clock.rs:69-98 | Which values are accepted, in numbers: first 1700000000 to 4853600000, then within 900 s of the anchor plus the seconds since; the clock then reads the value |
| `Clock.WindowIsTight` | hsm-core/src/clock.rs:100-111 | The 901st second is reached: two truncated readings can lose one more |
| `OtpSecret.ReturnedSecretWasBurnedWhole` | hsm-fw/src/otp_secret.rs:73-207 | From blank fuses, with power lost at any writes of any boots, every returned secret was burned over 16 blank rows and verified in one provisioning, is not degenerate and is locked, and no secret or marker row was ever written over a non-blank one |
| `OtpSecret.SecretNeverChanges` | hsm-fw/src/otp_secret.rs:73-101 | Once a boot returned a secret, and if void writes up to then took effect when they completed, every later boot returns the same one, or nothing because power was lost in it |
| `OtpSecret.SecretIsStableIff` | hsm-fw/src/otp_secret.rs:73-101 | The exact condition, without any hypothesis on writes: after a boot that returned a secret no later boot of any run returns anything else, if and only if the fuses it left are stable, which can be read off them: the first slot holds the secret locked, or the second does and the first is dead, cannot be locked, or holds the same secret |
| `OtpSecret.SecretCanChange` | hsm-fw/src/otp_secret.rs:117-207 | The failing run from blank fuses, for any two secrets: a boot cut after the marker, one whose lock and void writes fail, and one without faults return nothing, the second secret and the first |
| `OtpSecret.CutBootLeavesUnlocked` | hsm-fw/src/otp_secret.rs:197-206 | A boot cut right after the marker write leaves a complete but unlocked first slot |
| `OtpSecret.FailedVoidChangesTheSecret` | hsm-fw/src/otp_secret.rs:145-150 | From any complete but unlocked first slot: when both its lock and its void write fail, that boot burns and returns a second secret and the next boot returns the first |
| `OtpSecret.UseSlotTurn` | hsm-fw/src/otp_secret.rs:117-207 | One slot's turn under any faults leaves a returned slot complete and locked and, if void writes take effect, a given-up slot dead; the other slot is untouched |
| `OtpSecret.BurnRowsEffect` | hsm-fw/src/otp_secret.rs:188-195 | Burning rows writes blank rows only, one after the other, each read back |
| `OtpSecret.BurnedSecretReadsBack` | hsm-fw/src/otp_secret.rs:131-140 | Bytes written as little-endian words read back as the same secret |
| `OtpSecret.DeadStaysDead` | hsm-fw/src/otp_secret.rs:117-171 | A voided, dirty or unreadable slot is skipped and stays so |
| `OtpSecret.FirstBootProvisions` | hsm-fw/src/otp_secret.rs:73-101 | Without faults the first boot provisions the drawn secret in the first slot and the next boot returns it |
| `OtpSecret.BothPagesEndLocked` | hsm-fw/src/otp_secret.rs:86-98 | After a boot without faults that returned a secret both pages are locked |
| `OtpSecret.SickEntropyBurnsNothing` | hsm-fw/src/otp_secret.rs:81-84 | A failing or degenerate draw burns nothing and stops at once |
| `OtpSecret.DirtySlotIsVoided` | hsm-fw/src/otp_secret.rs:154-170 | An unknown marker or stray rows get the void marker 0xDEAD |
| `OtpSecret.FuseLayout` | hsm-fw/src/otp_secret.rs:32-57 | The fuse map in numbers |
| `OtpFuses.FuseBox.LoadOrBurn` | hsm-fw/src/otp_secret.rs:73-101 | The slot loop: the first usable slot's secret, entropy failure at once, the spare page locked |
| `OtpFuses.FuseBox.PowerOn` | hsm-fw/src/otp_secret.rs:73-101 | One boot of the chip; nothing is returned when power was lost during it |
| `OtpFuses.RunBoots` | hsm-fw/src/otp_secret.rs:73-101 | A fresh chip through any boots: every secret it returned was burned whole over blank rows, nothing was written over a non-blank secret or marker row, and from a boot that left stable fuses on no boot returns another secret |
| `OtpFuses.FuseBox.LoadSlot` | hsm-fw/src/otp_secret.rs:117-171 | Classifies a slot, voiding a dirty or degenerate one and re-locking a valid one |
| `OtpFuses.FuseBox.BurnSecret` | hsm-fw/src/otp_secret.rs:175-207 | Rows, marker, lock, in this order, with a void after any failure |
| `OtpFuses.FuseBox.WriteAndVerify` | hsm-fw/src/otp_secret.rs:210-216 | Succeeds only if the row reads back as written |
| `OtpFuses.FuseBox.HardLock` | hsm-fw/src/otp_secret.rs:220-231 | Succeeds only if the lock bits read back; an existing lock is not rewritten |
| `GoDuration.DurationRoundTrip` | hsm-core/src/goduration.rs:130-329 | Every i64 duration, the minimum included, parses back from its printed form |
| `GoDuration.ParseIsExact` | hsm-core/src/goduration.rs:130-229 | A well-formed string with exact fractions parses to the signed sum of its terms if and only if that sum is in the i64 range |
| `GoDuration.ParseTermsExact` | hsm-core/src/goduration.rs:150-219 | The running 64-bit total is the true sum whenever that is at most 2^63, and agrees with it modulo 2^64 in any case |
| `GoDuration.TwoHalvesWrapToZero` | hsm-core/src/goduration.rs:215-218 | The one wrap there is: two terms of 2^63 ns are accepted as zero |
| `GoDuration.FormatsWholeLikeGo` | hsm-core/src/goduration.rs:265-329 | 0s, 1ns, 1µs, 1ms, 1s, 1h0m0s, 24h0m0s, -1h0m0s and 1h30m0s, in bytes |
| `GoDuration.FormatsFractionLikeGo` | hsm-core/src/goduration.rs:245-261 | 1.5s, in bytes |
| `GoDuration.ParsesUnitsLikeGo` | hsm-core/src/goduration.rs:23-35 | 1h2m3s4ms5us6ns is 3723004005006 ns; both spellings of micro |
| `GoDuration.RefusesLikeGo` | hsm-core/src/goduration.rs:130-204 | Which refusal an empty string, no digits, a missing and an unknown unit get |
| `DurationCode.LeadingInt` | hsm-core/src/goduration.rs:78-96 | Overflow is flagged if and only if the whole run of digits exceeds 2^63; otherwise the exact value and length |
| `DurationCode.LeadingFraction` | hsm-core/src/goduration.rs:100-126 | All digits are consumed and the longest prefix of at most 2^63 is used, with its power of ten |
| `DurationCode.Parse` | hsm-core/src/goduration.rs:130-229 | The loop computes what ParseDuration says, and ends because each round consumes a unit |
| `DurationCode.FmtInt` | hsm-core/src/goduration.rs:231-243 | The decimal digits end up left of the start, everything to the right is kept |
| `DurationCode.FmtFrac` | hsm-core/src/goduration.rs:245-261 | The low digits without trailing zeros after a dot, or nothing, and the remaining quotient |
| `DurationCode.Format` | hsm-core/src/goduration.rs:265-329 | Returns the printed form for every i64; no write leaves the 32-byte buffer |
| `SshWire.StrReadsBack` | hsm-core/src/sshwire.rs:31-75 | A string that was put is the string that is read |
| `SshWire.ReadStringStands` | hsm-core/src/sshwire.rs:58-75 | What is read stands in the buffer as an SSH string |
| `SshWire.StrsReadBack` | hsm-core/src/cert.rs:41-45 | A list of strings is read back item by item to the last byte |
| `SshWire.ByteBuffer.PutString` | hsm-core/src/sshwire.rs:31-34 | Appends the 32-bit length and the bytes |
| `SshWire.Reader.ReadString` | hsm-core/src/sshwire.rs:58-75 | Returns the string at the position and moves past it, or fails without one |
| `SshWire.Reader.Skip` | hsm-core/src/sshwire.rs:88-94 | Moves past a fixed-size field only if it is there |
| `Mpint.CanonicalMpintsAreInjective` | hsm-core/src/sshwire.rs:322-333 | Two accepted encodings of one value are the same bytes |
| `Mpint.EveryNumberEncodes` | hsm-core/src/sshwire.rs:322-333 | Every positive number has an accepted encoding, so by injectivity exactly one |
| `Mpint.BitLenIsExact` | hsm-core/src/sshwire.rs:347-351 | The returned b satisfies 2^(b-1) <= value < 2^b |
| `Mpint.ReadU64` | hsm-core/src/sshwire.rs:335-345 | The fold returns the value without loss, or refuses more than 8 bytes |
| `PublicKeys.ReadKind` | hsm-core/src/sshwire.rs:245-305 | The cursor accepts exactly the keys KindAt accepts, with the same error class |
| `PublicKeys.AcceptedBodyIsWhole` | hsm-core/src/sshwire.rs:212-305 | An accepted blob is its algorithm name followed by exactly one (Ed25519) or two strings |
| `PublicKeys.AcceptsExactlyWellFormedKeys` | hsm-core/src/sshwire.rs:245-317 | Exactly these blobs are accepted: 32 bytes of Ed25519; RSA with canonical numbers, an exponent of at most 8 bytes, odd and at least 3; an uncompressed point of 65, 97 or 133 bytes on the named curve; nothing after |
| `PublicKeys.AcceptedRsaIsBounded` | hsm-core/src/validate.rs:133-152 | Every accepted RSA key has 2^2047 <= n < 2^8192 and an odd exponent of at least 3 |
| `Certificates.CertificateDecodes` | hsm-core/src/cert.rs:67-106 | Decoding a certificate recovers every parameter, the algorithm name in bytes and type 1, ends the signed part where it ends and leaves no trailing byte |
| `Certificates.SignedBytesAreUnique` | hsm-core/src/cert.rs:67-106 | Distinct parameters or authorities give distinct signed bytes |
| `Certificates.CertNamesOnTheWire` | hsm-core/src/sshwire.rs:144-153 | The five certificate algorithm names, byte by byte |
| `Certificates.TypeOnTheWire` | hsm-core/src/cert.rs:21-22 | The four bytes 0, 0, 0, 1 of a user certificate stand right after the serial |
| `Certificates.SampleOnTheWire` | hsm-core/src/cert.rs:67-106 | One small certificate, byte by byte, with all fields in the order of OpenSSH PROTOCOL.certkeys |
| `Certificates.EntriesRead` | hsm-core/src/cert.rs:51-62 | Both option maps are read back, flags and valued options alike |
| `Certificates.BuildCertificate` | hsm-core/src/cert.rs:67-106 | Appending field by field yields exactly the signed bytes followed by their signature |
| `Certificates.PutTuples` | hsm-core/src/cert.rs:51-62 | Appends the entries in order, a value as a string within a string |
| `Certificates.PutPrincipals` | hsm-core/src/cert.rs:41-45 | Appends the principals in order |
| `OrderedMaps.InsertIsUpdate` | hsm-core/src/validate.rs:64-70 | Insertion keeps the key order and changes exactly one binding |
| `OrderedMaps.InsertAllIsUnion` | hsm-core/src/validate.rs:64-70 | Inserting one map into another is their union |
| `Validate.ValidateSigning` | hsm-core/src/validate.rs:38-79 | Accepts exactly the acceptable requests, with the union of permissions and attributes as extensions; a refusal is the first failing check in the documented order |
| `Validate.ValidateRequest` | hsm-core/src/validate.rs:92-131 | The checks before the key, first failure first |
| `Validate.MergeInto` | hsm-core/src/validate.rs:64-70 | The merge loop yields the ordered union |
| `Validate.PassingIsAcceptable` | hsm-core/src/validate.rs:38-79 | Passing every check is the same as being acceptable |
| `Validate.AcceptedIsWithinLimits` | hsm-core/src/validate.rs:18-24 | The limits in numbers: 100 principals, 24 hours, RSA of 2048 to 8192 bits |
| `Issuance.IssuedCertificateGrantsTheRequest` | hsm-core/src/dispatch.rs:371-418 | In every reachable session the certificate issued for an accepted request decodes to the submitted key, the principals, the options and 300 s plus the validity asked for, signed over exactly the bytes before the signature |
| `LineIo.LineAssembler.Push` | hsm-core/src/lineio.rs:35-58 | An event exactly when the byte ends a segment, and then that segment's event; the buffer never exceeds the cap |
| `LineIo.LineAssembler.Feed` | hsm-core/src/lineio.rs:35-58 | A chunk adds exactly the events the batch split of the longer stream adds |
| `LineIo.Assemble` | hsm-core/src/lineio.rs:35-58 | However a stream is chunked, the events are those of splitting it at newlines, segments over 16384 bytes being TooLong and one trailing CR dropped |
| `LineIo.LinesFit` | hsm-core/src/lineio.rs:35-58 | Every emitted line fits the cap and holds no newline |
| `LineIo.OneSegment` | hsm-core/src/lineio.rs:35-58 | One segment in numbers: too long above 16384 bytes, else a line without one final CR |
| `SignerLine.Rewrite` | host/internal/hsmproto/hsmproto.go:198-261 | Refuses exactly the lines with a management key in any case or a repeated variant, naming the first offence; otherwise writes the kept variants in order |
| `SignerLine.RewritingPreservesMeaning` | host/internal/hsmproto/hsmproto.go:198-261 | For every accepted line the device runs the rebuilt object exactly as the original, never as a management command, and rewriting again changes nothing |
| `SignerLine.EverySpellingIsManagement` | host/internal/hsmproto/hsmproto.go:220-222 | Every spelling of hsm in either case, and with the long s, is refused |
| `SignerLine.KnownNames` | hsm-core/src/proto.rs:20-32 | The five names the device reads |
| `SignerLine.SameFieldsSameCommand` | hsm-core/src/dispatch.rs:303-338 | The device's reading depends on its five fields alone |

## Left out

- Real cryptography (Argon2id, HKDF, ChaCha20-Poly1305, Ed25519, SHA-512, curve checks): symbolic constructors, or the parameters `onCurve` and `sign`.
- Base64, JSON text and the splitting of an `authorized_keys` line into tokens: the model starts from decoded blobs and parsed members; the outcome of tokenising is a parameter of `Validate`.
- Whitespace trimming: whether a field is blank is a parameter of `Validate`.
- Floating-point rounding of fractions whose scale does not divide the unit: the product is a parameter, constrained only where it is exact.
- PinBudget.PinBudgetHolds: assumes that the config, key and counter reads of a boot or of a reload after a failed reset succeed, because without that it is false; see `Lockout.UnreadableCounterReopensThePin`.
- Lockout.LockoutIsFinal: the same assumption on boot reads, for the same reason.
- Backoff.BackoffIsAlwaysPaid: the same assumption on boot reads.
- KeyCache.CacheAgreesWithFlash: says nothing about the public-key cache outside ProdLocked and ProdReady, where a partly failed production init or wipe leaves it behind the flash, and covers runs of fewer than 2^32 events.
- FactoryReset.FactoryResetEqualsReboot: the reload it compares with reads flash without errors.
- Storage.WriteRefinesSlot: a sector torn inside one flash operation is assumed not to validate; a cut between operations needs no such assumption, since a record of at most 240 bytes takes one page. Longer payloads, which the firmware never stores, are covered by `Storage.FlashStore.WriteRecord` alone.
- OtpSecret.SecretNeverChanges: assumes that void writes that completed up to the first returned secret took effect; `OtpSecret.SecretIsStableIff` needs no such assumption. Reads of the fuses are reliable throughout.
- Certificates.CertificateDecodes: lengths below 2^32, as the 16 KiB line cap guarantees; longer strings lose their upper length bits.
- Mpint.BitLenIsExact: lengths are mathematical naturals, without the 32-bit product of the source.
- The configuration's firmware version, which no decision reads, appears in `Records` only.
- The random generator with its health checks: draws are inputs that may fail.
- `getPublicKey`, `status`, `selfTest`, `addEntropy`, `ping`, `getEnclaveMetrics` and `loadKeySigner`, which change no modelled state.
- The runtime software lock of the fuse pages, LEDs, glitch detectors, USB, the bridge, the command line and the packaging.
- The refusal of a management request that sets none or several commands; a request of the session is one command.
- Error messages beyond their class.
