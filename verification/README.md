# The agent, proved

A Dafny model of the Go agent of Docker Mobile: the program on a server that
lets paired phones reach the Docker API. It follows the parts of the agent
where the order of steps matters, and proves what each of them promises.

- **Revocation** (`conns.dfy`, `revocation*.dfy`, `auth_handler.dfy`): requests
  that authenticate, are tracked and authenticate again, against removals,
  re-used ids and a shutdown, any number of each. A section under a mutex is one
  step; every look at a context and every cancel outside the mutex is a step of
  its own.
- **Throttle** (`throttle.dfy`, `throttle_refinement.dfy`,
  `throttle_overlap.dfy`, `gate.dfy`, `pair_handler.dfy`): the bounded limiter
  against one that never forgets, the two callers that guard themselves with
  it, and what requests that overlap can record all the same.
- **Pairing** (`pairing.dfy`, `pairing_runs.dfy`, `pair_stream.dfy`): the one
  pending pairing, its channel of one slot, and the stream that waits on it.
- **Durable state** (`disk.dfy`, `dir.dfy`, `devices.dfy`, `durable*.dfy`,
  `tlsid*.dfy`): a disk on which each change since the last sync of the folder
  may be lost, name by name, and contents that were not synced may come back
  damaged; the device list and the TLS identity on it.
- **Ownership of the folder** (`ownership.dfy`): agents that start, fail, close
  and die on one folder, each system call a step.
- **Recognisers and printers** (`policy*.dfy`, `advertise.dfy`, `qr.dfy`,
  `code.dfy`): the paths a read-only device may ask for, addresses, QR codes in
  a terminal, pairing codes.

`common.dfy`, `runs.dfy` and `sorting.dfy` are shared. Where the source changes
an object in place, the model is a class whose methods are tied to functions on
values (`Reg`, `Table`, `Book`, `Disk`, `Memory`); what the source promises over
every run is proved of transition systems made of the same functions.

## Where the code does less than its comments say

Three promises are not true of every run. For each the code is modelled as it
is, a run shows the failure, and a theorem says exactly when the promise holds.

- *A revoked device has nothing left running once the revocation has returned*
  (`agent/internal/conns/conns.go:54-58`, `agent/internal/auth/authenticator.go:116-120`).
  A `CloseAll`, or the `CloseDevice` of another device that was given the same
  id, may hold a request it has not cancelled yet. See
  `RevocationExact.RevokeCompleteIff` and `RevocationWitnesses.ShutDownRace`.
- *Only a shutdown is answered with "shutting down"*
  (`agent/internal/auth/authenticator.go:134-138`). With an id handed out again
  between a removal and its `CloseDevice`, the new device can be told so. See
  `RevocationTold.ToldTheTruthIff` and `RevocationWitnesses.ReusedId`.
- *The fingerprint of the agent never changes, and a certificate is never left
  without its key* (`agent/internal/tlsid/tlsid.go:28-29` and `49-51`). A start
  that finds both files returns them while the rename of the key may still wait
  for a sync. See `TlsIdTheorems.KeptIff`,
  `TlsIdTheorems.StrandedIff` and `TlsIdTheorems.UnsyncedKeyIsReturned`.

A fourth holds on a condition: what the agent prints as its address is read back
exactly when there is no host in it or the port is a number
(`Addresses.PrintedIsParsedIff`). The port of the listen address is not checked
(`agent/internal/config/config.go:69`), so the name of a service gets through:
`Addresses.ServiceNameIsNotReadBack` is the run with ":https".

## Assumptions

Hashing, proofs, keys and certificates are symbolic: what was made from one
value is never what was made from another. Encoding and decoding are inverse.
Time is a whole number of nanoseconds; theorems over runs of the limiter and of
the device list take a clock that does not go back. A token's secret is never
drawn twice, nor the id of a pairing; the id of a device may be, once its device
is gone. Of IP addresses only this is used: one that contains a colon contains
at least two.

## Model

| member | source | states |
|---|---|---|
| `Conns.Registry.Track` | agent/internal/conns/conns.go:26-52 | A request of an open registry gets the next number, an entry in its device's set and a context that is not ended; a closed registry answers with an ended context and stays as it is |
| `Conns.Registry.Release` | agent/internal/conns/conns.go:41-51 | Release takes out the one entry it belongs to, drops a set that becomes empty, and ends the context; a refused request's release does nothing |
| `Conns.Registry.CloseDevice` | agent/internal/conns/conns.go:59-68 | The device's set leaves the registry, every context in it is ended, the count is its size, and the registry can never write to that set again, which is why the loop needs no lock |
| `Conns.Registry.CloseAll` | agent/internal/conns/conns.go:71-82 | Everything leaves the registry, which is closed and keeps no set, and every context that was in it is ended |
| `Conns.Registry.OpenCount` | agent/internal/conns/conns.go:85-89 | The size of the device's set, 0 without one |
| `Conns.TrackKeepsWellFormed` | agent/internal/conns/conns.go:33-40 | Tracking keeps the registry well formed: no empty set, and every number for one request only |
| `Conns.ReleaseKeepsWellFormed` | agent/internal/conns/conns.go:41-51 | So does a release, whatever number it names |
| `Conns.TrackAddsOne` | agent/internal/conns/conns.go:33-40 | Tracking adds one entry under the next number to the device's set, and leaves every other set alone |
| `Conns.ReleaseTakesOne` | agent/internal/conns/conns.go:41-51 | A release takes one entry out of the device's set, and the set with the last one; every other set stays |
| `Conns.ReleaseUndoesTrack` | agent/internal/conns/conns.go:26-52 | Track and its release together leave the registry exactly as it was but for the used number |
| `Conns.ReleaseIsIdempotent` | agent/internal/conns/conns.go:41-51 | Releasing twice is releasing once |
| `Conns.ReleaseKeepsOthers` | agent/internal/conns/conns.go:43-48 | A release never drops the entry of another request |
| `RevocationTheorems.RevokedAliveIsInOtherHands` | agent/internal/auth/authenticator.go:101-145 | In every interleaving of any number of requests, revocations, re-used ids and shutdowns: a request of a revoked device that still runs with a live context after handleRevoke has returned is on the list of a CloseAll still at work, or of the CloseDevice of another device that had the same id |
| `RevocationTheorems.RevokeCompleteWithoutOtherClosers` | agent/internal/admin/admin.go:357-379 | Hence, while no CloseAll is at work and the id was not handed out again, no request of the device is left alive once handleRevoke has returned |
| `RevocationExact.RevokeCompleteIff` | agent/internal/admin/admin.go:357-379 | Exactly when the promise holds in every future: if and only if, when CloseDevice is called, no live request of the device has been taken out of the registry by somebody else |
| `RevocationWitnesses.ShutDownRace` | agent/internal/conns/conns.go:54-82 | A run in which the promise fails: CloseAll holds the request and has not cancelled it when handleRevoke returns |
| `RevocationWitnesses.ReusedId` | agent/internal/auth/authenticator.go:125-142 | A run in which a paired phone is told that the agent stops although it does not: its id had been that of a device just removed |
| `RevocationTheorems.NobodyGetsInAfterwards` | agent/internal/auth/authenticator.go:115-125 | From the removal on, at every later moment of every run, the token is not good and no request that was not running then has got past its second lookup |
| `RevocationTheorems.ShuttingDownIsTrue` | agent/internal/auth/authenticator.go:106-142 | While no id is handed out twice, a request is answered that the agent stops only if CloseAll has begun |
| `RevocationTheorems.ToldForAnotherDevice` | agent/internal/auth/authenticator.go:106-142 | With ids handed out again, the only other way to that answer is the removal of another device that had the same id |
| `RevocationTold.ToldTheTruthIff` | agent/internal/auth/authenticator.go:106-142 | Exactly when, for a device just paired: in every future all its requests that are told so are told the truth, if and only if no CloseDevice of a removed device with the same id is still to come |
| `RevocationTheorems.AfterShutDown` | agent/internal/conns/conns.go:70-82 | Once CloseAll has begun, every request between Track and its release is ended or in the hands of a closer still at work |
| `RevocationTheorems.OpenIsExact` | agent/internal/conns/conns.go:84-89 | In every reachable state Open counts exactly the device's requests that are tracked and neither released nor closed |
| `RevocationTheorems.ReleasedIsEnded` | agent/internal/conns/conns.go:41-51 | When a tracked request is done its context has ended, and the registry has no entry of it |
| `RevocationTheorems.InvStep` | agent/internal/auth/authenticator.go:101-145 | The invariant that every step keeps: stages, table, numbers, lists of the closers, credentials, and who is responsible for what is still running |
| `AuthHandler.Authenticator.Require` | agent/internal/auth/authenticator.go:65-95 | A paired device passes whatever its address has done, with the id, the name and the role that the list has for it, so a read-only device is never handled as anything else; the limiter is then not touched. Nobody gets in with a device token that is not in the list. Anybody else, and a device removed by the second lookup, meets the limiter first; the limiter keeps its bound |
| `AuthHandler.Authenticator.WithoutDevice` | agent/internal/auth/authenticator.go:74-93 | 429 with the seconds left while the address is blocked, and the shared token is then not compared; 401 for all but the shared token, counted once, and only when there was a token |
| `AuthHandler.OnlyRefusalsCount` | agent/internal/auth/authenticator.go:74-93 | No answer to a stranger but 401 changes anything the limiter knows |
| `AuthHandler.OnlyTheSharedToken` | agent/internal/auth/authenticator.go:81-86 | A stranger gets in exactly with the shared token itself, when there is one and the address is not blocked, and then as "env" with full rights |
| `AuthHandler.BlockedLearnsNothing` | agent/internal/auth/authenticator.go:75-80 | While its address is blocked any two guesses, right or wrong, get the same 429 with the seconds left, rounded up, and leave the same limiter, and neither is compared |
| `AuthHandler.WrongGuessIsCounted` | agent/internal/auth/authenticator.go:87-89 | Every token that is refused, whether or not it was compared, is the newest failure of its address; a request without one counts nothing |
| `AuthHandler.OneFailureAtMost` | agent/internal/auth/authenticator.go:87-89 | A request adds one failure at most, to its own address only, and only when it had a token and was refused |
| `AuthHandler.Serve` | agent/internal/auth/authenticator.go:101-145 | None exactly when the token is not that of a listed device at the second lookup; "shutting down" exactly when the registry had ended the request and the client was there; otherwise the handler gets the id, name and role that the list has; and the registry is left with what was open before |
| `AuthHandler.HandleRevoke` | agent/internal/admin/admin.go:357-379 | 500, 404 or 200: without success the list and everything open stay as they were, with it the device is gone, everything it had open is ended, and the answer carries the count |
| `Throttle.RecentOf` | agent/internal/throttle/throttle.go:140-146 | The scan drops from the front exactly the failures that have left the window |
| `Throttle.PenaltyOf` | agent/internal/throttle/throttle.go:123-129 | The loop computes one minute doubled with every failure past the tenth, at most fifteen minutes |
| `Throttle.Limiter.Blocked` | agent/internal/throttle/throttle.go:89-100 | How long the address is blocked yet, and whether it is |
| `Throttle.Limiter.Fail` | agent/internal/throttle/throttle.go:106-137 | The failure is added to the pruned and capped list of the address, the block only moves forward, and a full table makes room first |
| `Throttle.Limiter.EvictLocked` | agent/internal/throttle/throttle.go:155-192 | The passes over the records drop what `OnlyIdleAreForgotten` and `OldestGoFirst` say, and reading the last failure of an unblocked address is safe |
| `ThrottleRefinement.OnlyIdleAreForgotten` | agent/internal/throttle/throttle.go:155-178 | Outside the batch exactly those are forgotten that are not blocked and have no failure of the last ten minutes, blocks are kept, and a batch is a thousand and goes only when ten thousand are left |
| `ThrottleRefinement.OldestGoFirst` | agent/internal/throttle/throttle.go:180-191 | Of the addresses that are not blocked the batch takes those whose last failure is oldest; of blocked ones, once no other is left, those whose block ends first |
| `ThrottleRefinement.FailureIsNewest` | agent/internal/throttle/throttle.go:106-137 | A recorded failure is the last of its address's list, the block ends no sooner, and with room in the table no other address changes |
| `ThrottleRefinement.OnlyTheWindowCounts` | agent/internal/throttle/throttle.go:140-146 | Of a list in order exactly the failures less than ten minutes old count, to the nanosecond |
| `Throttle.FirstAreABatch` | agent/internal/throttle/throttle.go:180-191 | The first tenth of the sorted candidates is such a batch |
| `ThrottleRefinement.LimiterRefinesReference` | agent/internal/throttle/throttle.go:86-192 | For every run with a clock that does not go back: the answer for an address is that of a limiter that never forgets, until it is given up in a batch; after that it is never more |
| `ThrottleRefinement.TableBounded` | agent/internal/throttle/throttle.go:28-34 | A recorded failure leaves a table of 10000 addresses at most no larger than that; LimiterRefinesReference says so of every run |
| `ThrottleRefinement.BlockedGoLast` | agent/internal/throttle/throttle.go:148-192 | A batch is a tenth of the table; a blocked address goes only if all that stay are blocked, and for at least as long |
| `ThrottleRefinement.FourteenthIsOutside` | agent/internal/throttle/throttle.go:118-136 | Without a failure during a block, the 14th failure after any one is at least ten minutes later |
| `ThrottleRefinement.AtMostThirteen` | agent/internal/throttle/throttle.go:118-136 | So any ten-minute window holds 13 of them at most |
| `ThrottleRefinement.NoLongBlock` | agent/internal/throttle/throttle.go:122-136 | And no block is longer than eight minutes |
| `ThrottleRefinement.GuardedCallerAtMostThirteen` | agent/internal/throttle/throttle.go:86-137 | For every run in which an address is failed only after a check that found it free: 13 failures in any ten minutes at most since it was last given up, so the cap of 14 hides nothing, and no block over eight minutes |
| `Gates.GuardedCallersAreBounded` | agent/internal/auth/authenticator.go:75-89 | In every run in which each address is failed only after its own check found it free, all addresses together: no address has over 13 failures in ten minutes or a block over eight minutes |
| `Gates.Gate.ValidIsBounded` | agent/internal/auth/authenticator.go:75-89 | So the limiter behind a gate keeps that bound at every moment; `HandlePair` and `Require` promise it of what they leave |
| `ThrottleOverlap.OverlapIsBounded` | agent/internal/throttle/throttle.go:86-137 | When requests of an address overlap between the check and the failure, at most k at a time, ten minutes hold 13 of its failures for k = 1, 14 for k = 2 and 13 + k for k from 3 on, at most |
| `ThrottleOverlap.OverlapBoundIsMet` | agent/internal/throttle/throttle.go:86-137 | For every k there is a run with exactly so many, so the bound is exact |
| `Gates.Gate.Fail` | agent/internal/auth/authenticator.go:87-89 | A failure is recorded only after a check of the same address that found it free, and is the newest of its address then |
| `PairHandler.HandlePair` | agent/internal/server/pair.go:58-113 | 429 exactly while the address is blocked, 400 exactly for a request that is not version 1 with a nonce and a proof of 32 bytes, and neither touches anything. Otherwise 404 without a pending pairing in time, 403 for a proof not made from its code, 500 when the random source or create fails, and else the device, its token and the agent's own proof. Exactly 404 and 403 record a failure of the address, as its newest; create is asked for the pairing's name and role; the limiter keeps its bound |
| `PairHandler.OnlyTheCodePairs` | agent/internal/server/pair.go:83-106 | At any moment of any run a phone gets a device exactly when its proof was made from the code of a started pairing that has sent nothing yet and is not expired, and nothing failed; the starter of that pairing is then sent that device |
| `Pairing.Manager.Start` | agent/internal/pairing/manager.go:102-126 | A new pairing with an empty channel; the pending one, if any, is sent Replaced; an unknown role or a failing random source changes nothing |
| `Pairing.Manager.End` | agent/internal/pairing/manager.go:143-149 | The send under the lock finds the slot free, so it never blocks |
| `Pairing.Manager.Redeem` | agent/internal/pairing/manager.go:155-189 | By the pending pairing, the clock and the proof: expiry, wrong proof, fifth wrong proof, failing random source, failing create and success, with what each answers and sends, and what becomes of the pairing. create is asked for the role of the pairing and its name, or the phone's when it has none; the agent proves itself with the same code and both nonces |
| `PairingRuns.OneResultEach` | agent/internal/pairing/manager.go:93-149 | In every run a pairing has been sent nothing while it is pending and exactly one result afterwards; a pending one has fewer than five wrong proofs, and the fifth voids it |
| `PairingRuns.CreatedOnceInTime` | agent/internal/pairing/manager.go:158-188 | create is called once at most for each pairing, only before it expires, only for an attempt whose proof was made from that pairing's own code, with the role it was started with and its name, or the phone's when it has none; what became of it is what the starter is sent |
| `PairingRuns.PairedIffStored` | agent/internal/pairing/manager.go:181-188 | A starter is told of a device exactly when create stored that device for its pairing |
| `PairStream.SecondReceiveNeverBlocks` | agent/internal/admin/admin.go:290-305 | Whatever the select chose, and however it meets redemptions and later starts, the second receive finds a result |
| `PairStream.StreamIsComplete` | agent/internal/admin/admin.go:306-325 | A finished stream is "started" and one ending that is not "cancelled", or "started" alone, exactly when the request ended and nothing was stored; a stored device is always the last line |
| `Disks.WriteIsAtomic` | agent/internal/state/dir.go:229-261 | At every step of a write, whatever fails, each folder the disk may come back with is an old one or the live one with the new file whole under its name, but for the temporary file |
| `Disks.PowerCutIsAtomic` | agent/internal/state/dir.go:229-261 | So after a power cut at any step each name holds what a cut before the write could have left there, or, for the written one, the new file whole |
| `Disks.SuccessIsDurable` | agent/internal/state/dir.go:253-260 | A write without an error has made the new file, and all else in the folder, certain to survive |
| `Disks.EarlyFailureChangesNothing` | agent/internal/state/dir.go:230-256 | An error before the rename leaves every file as it was but for a temporary one, and the folder exactly as it was when that could be removed |
| `Disks.LateFailureIsSeen` | agent/internal/state/dir.go:253-260 | When only the sync of the folder fails, every reader has the new file all the same |
| `StateDir.Dir.WriteFile` | agent/internal/state/dir.go:229-261 | The method takes the disk through exactly the steps of the model, and reports success only if none failed |
| `StateDir.FirstEntry` | agent/internal/state/dir.go:168-175 | Nothing is found exactly when the folder holds nothing but lost+found |
| `StateDir.CheckExisting` | agent/internal/state/dir.go:127-150 | A folder is taken exactly when it is a folder of this user's that holds nothing but lost+found, or is closed to others and holds only the agent's own names besides |
| `StateDir.OwnNamesAre` | agent/internal/state/dir.go:192-216 | The agent's own names are its five files, a dot with one of them, another dot and more, and "probe." with more; nothing else |
| `StateDir.Open` | agent/internal/state/dir.go:68-108 | Taken exactly when no step fails and there is nothing at the path, or a folder that may be taken into which nothing came before it was closed; it is then private with the agent's own names only. What was refused is as it was, but that a folder that could be taken at the first look may have been made private, and a missing one made |
| `DeviceStore.ListingIsLoaded` | agent/internal/state/devices.go:64-87 | Loading a saved list gives back exactly the devices it was made from |
| `DeviceStore.TheLaterWins` | agent/internal/state/devices.go:64-87 | Of several entries with one id the last is the one that counts |
| `DeviceStore.Devices.LoadFrom` | agent/internal/state/devices.go:64-87 | A missing file is an empty list, a damaged file or an incomplete entry an error, and of two entries with one id the later wins |
| `DeviceStore.Devices.List` | agent/internal/state/devices.go:179-193 | Every device once, in strict order of the time it was added and then of its id |
| `DeviceStore.OldestFirstIsUnique` | agent/internal/state/devices.go:186-191 | There is one such list only |
| `DeviceStore.LessIsByTheFirstDifference` | agent/internal/state/devices.go:186-191 | Ids are compared by the first byte in which they differ, a beginning first |
| `DeviceStore.Devices.SaveLocked` | agent/internal/state/devices.go:216-233 | The file gets every device once in the order of the ids, and the saved times are noted only after success |
| `DeviceStore.Devices.Add` | agent/internal/state/devices.go:113-143 | A free id, a token, a saved list; every error leaves the list in memory as it was, and one before the save the disk too |
| `DeviceStore.Devices.Authenticate` | agent/internal/state/devices.go:151-176 | Exactly the tokens of listed devices are good; the device has its last-seen time set and nothing else of the list changes; the list is saved exactly when the saved time is a minute old; a failed save locks nobody out |
| `DeviceStore.Devices.Remove` | agent/internal/state/devices.go:200-214 | Gone, not found, or not stored, and then the list in memory is as it was |
| `DurableTheorems.CrashLeavesAWholeList` | agent/internal/state/devices.go:216-233 | A kill or a power cut at any step of any run leaves only the agent's own names, and a list that loads: that of the last save without an error, or of one begun after it |
| `DurableTheorems.CrashLeavesAFolderToTake` | agent/internal/state/dir.go:192-216 | So the next start takes the folder |
| `DurableTheorems.AddedSurvives` | agent/internal/state/devices.go:113-143 | A device whose Add succeeded is in every list a crash may leave, until Remove is called on it |
| `DurableTheorems.DevicesAreAsAdded` | agent/internal/state/devices.go:113-176 | In every run each device, in memory and in every list a crash may leave, has the id, the name, the role, the hash and the time that its Add gave it |
| `DurableTheorems.KeptIsAsAdded` | agent/internal/state/devices.go:113-176 | So a paired device is there under its own token with all it was given, and only its last-seen time moves |
| `DurableTheorems.RemovedStaysGone` | agent/internal/state/devices.go:200-214 | A device whose Remove succeeded is in no list a crash may leave, and never in memory again |
| `DurableTheorems.SuccessIsOnDisk` | agent/internal/state/devices.go:216-233 | After a save without an error every folder that may be found holds exactly the list in memory |
| `DurableTheorems.PersistedCovers` | agent/internal/state/devices.go:57-58 | Through every success and failure the saved times cover exactly the devices in memory |
| `DurableTheorems.SavesAMinuteApart` | agent/internal/state/devices.go:170-174 | Two saves that requests of one device cause are at least a minute apart, across restarts too |
| `Durable.ContentsStep` | agent/internal/state/devices.go:113-233 | The invariant that carries these: each list that may be found knows every kept token and no removed one |
| `Durable.WhatARunRecords` | agent/internal/state/devices.go:113-214 | A run counts a token as kept from the Add that reported success until Remove is called on its device, as gone from a Remove that reported success, and never forgets what Add gave it |
| `TlsId.LoadOrCreate` | agent/internal/tlsid/tlsid.go:52-96 | The method takes the disk through exactly the steps of the model and returns what the model says: create, issue, use or refuse |
| `TlsId.ReturnedIsNotDue` | agent/internal/tlsid/tlsid.go:91-133 | Every certificate that is returned has its thirty days left, seconds rounded down included |
| `TlsId.ValidForTenYears` | agent/internal/tlsid/tlsid.go:107-133 | A new certificate is valid for ten years less the part of a second |
| `TlsId.GoodPairIsUsed` | agent/internal/tlsid/tlsid.go:65-95 | Two files that belong together with thirty days left are returned as they are, and nothing is written |
| `TlsId.DueIsIssuedAgain` | agent/internal/tlsid/tlsid.go:79-95 | A key whose certificate is missing or has less left gets a new one, for the same key, which is not written again |
| `TlsId.NothingIsCreated` | agent/internal/tlsid/tlsid.go:56-68 | With neither file there the key is written, and then its certificate, only once the key is certain to be there |
| `TlsId.AnythingElseIsRefused` | agent/internal/tlsid/tlsid.go:69-90 | Anything else is an error that writes nothing: a file that cannot be read or decoded, a certificate without a key, two that do not belong together |
| `TlsIdTheorems.KeptIff` | agent/internal/tlsid/tlsid.go:49-96 | Over every run with write errors, kills and power cuts: a returned identity has the fingerprint of every later one if and only if the call wrote a file itself, or the folder was synced since the key got its name |
| `TlsIdTheorems.UnsyncedKeyIsReturned` | agent/internal/tlsid/tlsid.go:65-95 | A run that breaks the promise: two starts are killed, each between a rename and its sync, and the third returns the pair as it is |
| `TlsIdTheorems.LostKeyIsReplaced` | agent/internal/tlsid/tlsid.go:56-68 | What happens then: a power cut may take both files, and the next start makes another key |
| `TlsIdTheorems.AnySaveSettles` | agent/internal/state/dir.go:253-260 | Any save in the folder without an error makes the key certain to survive |
| `TlsIdTheorems.KillsNeverChangeTheKey` | agent/internal/tlsid/tlsid.go:52-134 | Kills and write errors without a power cut never change the fingerprint |
| `TlsIdTheorems.FoundIsAPair` | agent/internal/tlsid/tlsid.go:69-86 | No folder that may be found holds a damaged file or a certificate for another key; a start is refused exactly when there is a certificate without a key |
| `TlsIdTheorems.StrandedIff` | agent/internal/tlsid/tlsid.go:69-78 | A power cut can leave a certificate without its key exactly when the key waits for a sync and the certificate is there |
| `TlsIdTheorems.StrandedForEver` | agent/internal/tlsid/tlsid.go:69-71 | From then on no call ever returns an identity |
| `Ownership.AtMostOneHolder` | agent/internal/admin/os_unix.go:18-37 | With any number of agents starting, failing, closing and dying on one folder, at most one holds its lock |
| `Ownership.ServingOwnsThePath` | agent/internal/admin/admin.go:140-197 | From the bind until Close removes it, the socket at the path is the agent's own |
| `Ownership.OthersLeaveItAlone` | agent/internal/admin/admin.go:161-174 | No step of another agent touches the socket or the lock of one that holds the lock |
| `Ownership.BusyMeansAlive` | agent/internal/admin/admin.go:144-147 | Listen says that another agent is running only if one holds the lock |
| `Ownership.NothingIsKept` | agent/internal/admin/admin.go:151-155 | A Listen that failed and a Close that is done hold no lock, and nothing at the path is theirs unless it could not be removed |
| `Ownership.Folder.Listen` | agent/internal/admin/admin.go:140-174 | Alone on the folder, Listen succeeds exactly when the path is no longer than 103 bytes, no step fails and no lock is held, whatever a dead agent left at the path; too long a path changes nothing at all |
| `Ownership.Folder.Close` | agent/internal/admin/admin.go:187-197 | The socket goes first and the lock after it |
| `PolicyTheorems.AllowedIsGrammar` | agent/internal/policy/policy.go:41-68 | For every text: the checks and the fourteen expressions together accept exactly the grammar of segments, with GET and HEAD |
| `PolicyTheorems.OneSegmentReads` | agent/internal/policy/policy.go:21-36 | Of the paths of one segment exactly /_ping, /version, /info, /events, /networks and /volumes may be read |
| `PolicyTheorems.TwoSegmentReads` | agent/internal/policy/policy.go:21-36 | Of two: /system/df, the lists of containers and images, and one network or volume |
| `PolicyTheorems.ThreeSegmentReads` | agent/internal/policy/policy.go:21-36 | Of three: json, logs and stats of one container, json and history of an image, and whoami |
| `PolicyTheorems.LongerReads` | agent/internal/policy/policy.go:21-36 | Of more: only json and history of an image whose name has several parts |
| `PolicyTheorems.AcceptedIsSafe` | agent/internal/policy/policy.go:45-54 | An accepted path has no empty, "." or ".." segment, nothing encoded, no backslash and no slash at the end |
| `PolicyTheorems.ExactlyOneRule` | agent/internal/policy/policy.go:21-36 | It matches exactly one of the fourteen expressions |
| `PolicyTheorems.VersionChangesNothing` | agent/internal/policy/policy.go:55-61 | A version in front of a path that has none changes nothing |
| `PolicyTheorems.VersionEndIsTheMatch` | agent/internal/policy/policy.go:18-18 | The scan for the version finds the match of its expression, and there is one at most |
| `PolicyGrammar.RuleMatches` | agent/internal/policy/policy.go:21-36 | Each of the expressions is its rule for the segments |
| `PolicyGrammar.ClassesAre` | agent/internal/policy/policy.go:14-18 | The characters that the expressions take, one by one |
| `Addresses.SplitIsExact` | agent/internal/config/advertise.go:141-206 | Accepted are host, [host], host:port and [host]:port with a valid host and port, with exactly those parts, and nothing else |
| `Addresses.PortsAreNumbers` | agent/internal/config/advertise.go:198-206 | A port is a number from 1 to 65535 as it is usually written, with any zeros in front, and nothing else |
| `Addresses.ParsedIsExact` | agent/internal/config/advertise.go:36-60 | The address is empty for nothing but white space, and otherwise that of one of the written forms without a scheme; the port that is listened on stands in for a missing one |
| `Addresses.TrimIsExact` | agent/internal/config/advertise.go:36-40 | What is trimmed is the white space at both ends, and all of it |
| `Addresses.ReasonIsTrue` | agent/internal/config/advertise.go:141-206 | The reason that a refusal gives is true of what was typed |
| `Addresses.JoinedIsReadBack` | agent/internal/config/advertise.go:141-175 | A host and a port that are joined are read back as they were, with brackets exactly around a host with colons (section 3.2.2 of RFC 3986) |
| `Addresses.AcceptedIsReadBack` | agent/internal/config/advertise.go:135-175 | Whatever was accepted with a port can be printed and read again |
| `Addresses.PrintedWithScheme` | agent/internal/admin/admin.go:337-346 | With a scheme the printed address is a URL |
| `Addresses.PrintedIsParsedIff` | agent/internal/admin/admin.go:337-346 | What addressOf prints is parsed to the same address again, if and only if there is no host or the port is a number from 1 to 65535 |
| `Addresses.ServiceNameIsNotReadBack` | agent/internal/config/config.go:69-73 | The input that shows it: with the listen address ":https" the name "nas" is advertised as "nas:https", which is refused when it is typed again |
| `Addresses.WithPrintedHost` | agent/internal/config/advertise.go:106-123 | And as a host typed for one pairing it changes nothing, if and only if the same holds |
| `Addresses.SameRefusals` | agent/internal/config/advertise.go:103-123 | WithHost takes and refuses what ParseAdvertise does, for the same reasons, and takes over what is missing |
| `Qr.Render` | agent/internal/qr/qr.go:25-58 | For every square of modules, odd or even, and both ways round: half as many lines as rows, rounded up, each as wide as the code with a border of four, and a scanner that knows nothing of the code reads exactly the code with its light border |
| `Code.NewCode` | agent/internal/pairing/code.go:24-34 | A code of twelve symbols, each the five low bits of its random byte; too few bytes are an error |
| `Code.Normalize` | agent/internal/pairing/code.go:43-69 | The loop computes the normal form, or refuses |
| `Code.NormalizeReadsSpellings` | agent/internal/pairing/code.go:36-69 | Accepted are the spellings of a code (either case, O for 0, I and L for 1) with separators anywhere, and nothing else |
| `Code.AcceptedIsAscii` | agent/internal/pairing/code.go:40-48 | Nothing above 127 is accepted |
| `Code.NormalizeIsIdempotent` | agent/internal/pairing/code.go:36-69 | What comes out is canonical, and is its own normal form |
| `Code.SeparatorsChangeNothing` | agent/internal/pairing/code.go:52-54 | A hyphen or a space anywhere changes nothing |
| `Code.CaseChangesNothing` | agent/internal/pairing/code.go:49-51 | Nor does the case of any letter |
| `Code.FormatIsReadBack` | agent/internal/pairing/code.go:71-77 | Reading what is shown gives the code back |
| `Code.ShownInThreeGroups` | agent/internal/pairing/code.go:71-77 | What is shown are the twelve symbols in order, with a hyphen after the fourth and after the eighth |
| `Code.EightBytesEach` | agent/internal/pairing/code.go:29-32 | Each symbol comes from exactly eight of the 256 byte values |

## Left out

- Cryptographic strength, X.509, PEM and JSON as byte formats: abstract values only.
- HTTP servers, the reverse proxy, WebSockets, Docker, TLS handshakes, logs, command line and the app: plumbing and user interface.
- The text of tokens, `CleanName`, `throttle.Key`, Unicode tables and `net.ParseIP`: opaque, or given cleaned.
- Reads of the body and of headers that take time, and deadlines: wall-clock behaviour of the library.
- `url.Parse` and the proxy mode of `ParseAdvertise`; links (`Link`, `portFor`) and the URL encoding in them.
- Windows: locks, folder modes and renames are those of Unix.
- File systems that cannot sync a folder: `syncDir` then reports success and nothing is known to be durable.
- The width of request numbers (64 bits): they do not wrap round here.
- The probe file of `Open`: it is made and removed again, and only whether that works is modelled.
- `Devices` and `Durable`: the runs with crashes are over the same functions on values that the methods are tied to, not over the objects.
- `Gate`: one request at a time goes through its methods; requests of one address that overlap between the check and the failure are those of `ThrottleOverlap`.
- AuthHandler.Authenticator.Require: at most one removal meets the request, between its two lookups; every other interleaving is in the revocation theorems.
- Throttle.Limiter.Fail: which of several addresses of equal rank go in a batch is left open, as the sort of the source is not stable over the order of a map.
- PairStream.StreamIsComplete: what the lines carry besides their event and the device is not modelled.
