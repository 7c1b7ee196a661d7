# Bitcoin Argus, verified core

A Dafny model of the parts of Bitcoin Argus whose correctness is not visible from reading one
function: the faucet's address codec, the tiered metrics store and its sampler, the faucet's
claim protocol, the Lightning liquidity ring, the proof-of-work arithmetic and the port
allocator. Every model member follows the branches and constants of the code it cites; the
lemmas state what that code achieves over all inputs, all runs or all interleavings.

Verify with `dafny verify --resource-limit 2000000 --verification-time-limit 0 dfyconfig.toml`.

## Layout

- `Options`, `Positional`, `Bits`, `Text`: option type, big-endian numbers, shifts and masks
  as arithmetic, Python string operations on ASCII.
- `ConvertBits`, `Polymod`, `Segwit`, `Burst`, `CaseFlip`, `Base58`, `Addresses`: the address
  codec. `Register`, `AddressExamples`: known texts worked through symbol by symbol.
- `History`, `HistoryFacts`: the metrics table and its statements. `HistoryRuns`, `HistoryWindow`:
  raw and hour rows over whole runs, for any retention and either window. `HistoryDays`,
  `HistoryDayRuns`, `HistoryDaySettings`: the same for day rows. `HistorySamples`: the results on
  the samples themselves. `HistoryReadings`: peaks, means and disk readings in
  terms of the samples. `HistorySteady`: what the coded window leaves in everyday use.
  `Sampler`, `SamplerSeries`: the counters feeding the store, and from them to the kept rows.
- `FaucetStore`, `Usage`, `Faucet`: the tables, the usage statistics, one request.
- `FaucetRuns`, `FaucetAcceptance`, `FaucetReports`: runs of requests handled one at a time, with
  purges, when exactly a request is paid, what the visitor is told and what a payout changes.
- `FaucetWorkers`, `FaucetInterleaved`, `FaucetCounters`, `FaucetRaces`, `FaucetBounds`: any number
  of workers interleaved statement by statement, with crashes, clock ticks and purges.
- `Ring`, `RingRest`: the channel triangle, its rebalancer, and where it comes to rest.
- `PowTarget`, `Difficulty`: browser and server agreement, and the difficulty formula.
- `Ports`: host-port allocation.

A class or method with loops models code that changes state step by step; it is proved equal
to a function of its inputs or old state, and the lemmas are about that function.

## Where the code and its documentation part ways

The model follows the code. These are theorems, not remarks.

- **Rollup window.** The docstring of `_rollup_into` selects rows by bucket floor
  (`argus/web/history.py:143-144`); the SQL tests `ts >= since` with an unaligned `since`
  (lines 172, 187-188). For any retention and either window, an hour row holds the samples of
  its bucket that the last rollup to rewrite it could see (`HistoryRuns.HourRows`), and is
  exact if and only if no rollup ever started to see the bucket between two of its samples
  (`HistoryWindow.HourExactIff`). Day rows are rolled up from those rows
  (`HistoryDayRuns.DayRows`), and are true to their day if and only if neither an hour of the
  day nor the day was ever cut (`HistoryDayRuns.DayExactIff`). As coded, one run of four ticks
  leaves 7 of 12 bytes in an hour row and 10 of 15 in the day row, under every accepted retention
  (`HistoryWindow.ShortRunLosesBytes`, `HistoryDaySettings.ShortRunLosesADay`). It is no rare
  accident: with ticks at most `gap <= 3600` seconds apart and retentions of two or more, the row of an
  hour two hours past, and of a day two days past, holds at most `gap` seconds of its samples
  (`HistorySteady.SteadyHour`, `HistorySteady.SteadyDay`), at a regular pace one sample
  (`HistorySteady.RegularRowsAreOneSample`).
- **Retention of one.** Retentions are only checked to be at least one
  (`argus/config.py:1285-1300`), and one hour of raw rows or one day of hour rows is a real
  setting. One hour of raw rows loses samples even with the documented window
  (`HistoryWindow.OneHourOfRawRowsLosesBytes`), and so does one day of hour rows under two days
  or more of day rows (`HistoryDaySettings.LongRunCut`). Of the accepted settings, hour rows
  are always exact for the documented window with at least two hours of raw rows and for no
  other (`HistoryWindow.HoursExactIff`); day rows need, besides, two days of hour rows or a
  single day of day rows (`HistoryDaySettings.DaysExactIff`).
- **Expected usage.** `usage_stats` is documented as never below 3650
  (`argus/faucet/store.py:242-244`). One claim ever, made today, gives 3641
  (`Usage.OneClaimBreaksTheBound`), and that table is reached by the first payout of a network
  (`FaucetAcceptance.FirstPayoutBreaksTheBound`). `Usage.TenADayIff` says exactly when 3650 is
  reached; 365 always is, which is what the division needs. The "ever recorded" maximum also
  forgets days the yearly purge has dropped.
- **Demand factor.** `argus/config.py:852-853` says the factor reaches its maximum at
  `demand_target_per_day` claims; it starts to rise there and reaches it at that number times
  the maximum (`Difficulty.DemandPeaks`).
- **Value-pegged cap.** The configuration check compares `min_seconds` with `max_seconds` only;
  on a value-pegged network the cap holds exactly when `min_seconds <= value_cap_seconds`
  (`Difficulty.ClampsHold`).
- **Port collisions.** `allocate` compares pool bases only, so an override can put a service
  inside a Bitcart pool (`Ports.OverrideIntoPool`). Overriding a base moves the registered port
  and the firewall's range (`argus/firewall.py:79-82`) but not the pool, which Bitcart is told to
  open at the block's own offset (`argus/bitcart.py:115-116`): a clash can then go unnoticed
  (`Ports.MovedBaseHidesClash`) and a harmless layout be refused (`Ports.MovedBaseFalseAlarm`).
  `Ports.NobodyClashesIff` is the exact condition. Without overrides nothing can collide
  (`Ports.DefaultLayoutInjective`).
- **Burst detection needs a letter in the prefix.** Under the prefix "0" the address
  `010qr4qhm9826` has all its letters in one block of six, and switching their case is accepted
  (`CaseFlip.FlippedBurstAccepted`). `Burst.BurstAcceptedIff` is the exact condition and
  `Burst.BurstRejected` the result for prefixes with a letter, as all in use have.
- **Redundant tests.** The whitespace and empty-string tests of `is_valid_address` reject
  nothing the decoders would accept (`Addresses.NoSpaceInAddress`).
- **Single use and purges.** One challenge pays at most once unless a nonce purge timed after
  its expiry falls between a request's clock reading and its redeem. The bound is one send more
  than the number of such purges (`FaucetInterleaved.AtMostOneSend`), and it is reached
  (`FaucetRaces.OvertakenChallengePaysTwice`). The window opens at the clock reading, before
  verification.
- **Limits and races.** The daily limits hold when requests are handled one at a time
  (`FaucetRuns.FreePayoutsADayApart`, `FaucetRuns.PowPayoutsCapped`). Two requests of one visitor
  side by side are both paid (`FaucetRaces.DailyLimitRaces`); once a claim is recorded, later
  checks honour it in every interleaving that neither records an older claim over it nor purges
  past the later request's clock reading (`FaucetRaces.RecordedClaimIsHonoured`). The overshoot is
  bounded: a visitor's proof-of-work payouts of a day exceed the cap by at most one for each
  worker but one (`FaucetBounds.PowOvershootBounded`), and the free payouts of any one day are at
  most one per worker, and again one per worker each time the visitor's row is purged or
  overwritten by an older claim (`FaucetBounds.FreeOvershootBounded`), besides payouts whose
  worker died before recording them.
- **A stuck ring.** A node plans from its own two channels, so the third may not carry the
  amount, and a smaller one is never tried (`Ring.FeasibleIffMiddleCarries`, `Ring.StuckRing`). The
  comment that another node puts right what a node skewed the same way on both sides cannot
  (`argus/builders/lnd.py:594-597`) fails there. With every payment routed the loop comes to rest
  (`RingRest.LoopSettles`), as generated within 1504 turns for any capacity
  (`RingRest.GeneratedRingSettles`). The script plans nothing exactly when every node is in the
  band or has no two channels off the same way by the minimum (`RingRest.QuietMeaning`), so the
  band, not the minimum, decides how far off a ring may stay (`RingRest.QuietBounds`,
  `RingRest.BandHidesSkew`).

## How the world is modelled

- SHA-256 and the proof-of-work hash are parameters: any function to 32-byte digests.
- HMAC is unforgeable and JSON injective: a challenge is forged or one the server issued
  (`Faucet.Token`). Nonces name one challenge each.
- Clock readings, balances, parsed amounts, the approval function's answer and the success of a
  send are part of the request or the step; clocks never run backwards.
- Floats are reals. Amounts are whole sats. Shifts and masks on Python integers are products,
  quotients and remainders by powers of two; the polymod register is a 30-bit vector.
- A circular Lightning payment succeeds completely, without fees, or has no effect. The listing
  order of a node's two channels is arbitrary.
- One SQL statement, one node call or one clock reading is one atomic step.
- Docker lists a container name at most once per tick, and no two ticks fall in one second.

## Model

| member | source | states |
|---|---|---|
| ConvertBits.Convert | argus/faucet/addresses.py:78-93 | the loop succeeds exactly when some list regroups the input's bits with fewer than `from` pending bits, all zero, and then returns it; it returns None exactly when none exists |
| ConvertBits.RegroupsFiveToEight | argus/faucet/addresses.py:78-93 | regrouping 5 to 8 relates a symbol list to a byte string exactly when the list is the byte string's zero-padded 5-bit form |
| ConvertBits.FiveBitFormInjective | argus/faucet/addresses.py:78-93 | two byte strings with one 5-bit form are equal, so regrouping is injective on what it accepts |
| ConvertBits.FiveBitFormConcat | argus/faucet/addresses.py:78-93 | five bytes fill eight groups exactly: the form of a concatenation behind whole fives is the concatenation of the forms |
| Polymod.Compute | argus/faucet/addresses.py:39-47 | the loop over generators computes the register run whose linearity and kernel the lemmas below are about |
| Polymod.StepXor | argus/faucet/addresses.py:39-47 | one register step is linear over exclusive or on all 30-bit states and symbols |
| Polymod.RunXor | argus/faucet/addresses.py:39-47 | so is a whole run over two symbol lists of one length |
| Polymod.StepKernel | argus/faucet/addresses.py:39-47 | only the zero state steps to zero on symbol zero: the step is injective on 30-bit states |
| Polymod.RunInjective | argus/faucet/addresses.py:39-47 | different lists of at most six symbols leave state zero in different states |
| Polymod.WindowsDiffer | argus/faucet/addresses.py:39-47 | the same from any common state |
| Polymod.SuffixKeepsDifference | argus/faucet/addresses.py:39-47 | different states stay different under every common continuation |
| Polymod.BurstChangesChecksum | argus/faucet/addresses.py:39-47 | replacing at most six consecutive symbols by different ones changes the checksum |
| Polymod.ChecksumSymbolsUnique | argus/faucet/addresses.py:39-75 | exactly one choice of six final symbols brings a list to a given constant, the one BIP 173 appends |
| Segwit.ScanSymbols | argus/faucet/addresses.py:66-71 | the symbol loop fails exactly when a character is outside the charset |
| Segwit.Decode | argus/faucet/addresses.py:54-75 | the method's branches and loop compute the decoder's partial function, characterised by DecodeSound and DecodeComplete |
| Segwit.DecodeSound | argus/faucet/addresses.py:54-75 | whatever decodes is the all-lower or all-upper text of its prefix and symbols with its checksum constant |
| Segwit.DecodeComplete | argus/faucet/addresses.py:54-75 | every such text decodes, to that prefix, payload and constant |
| Segwit.SegwitDecodes | argus/faucet/addresses.py:54-113 | the BIP 173/350 encoding of a version and program decodes to their payload with the version's constant |
| Segwit.IsValidSegwit | argus/faucet/addresses.py:96-113 | true exactly when the string is the all-lower or all-upper encoding of some version 0..16 and program meeting the length rules under the expected prefix; and, with every number written out, exactly when it spells symbols that carry such a version and program and leave the register at 1 for version 0, at 0x2BC830A3 otherwise |
| Segwit.AcceptanceSpelledOut | argus/faucet/addresses.py:22-113 | the two characterisations agree on every string |
| AddressExamples.EverySymbolDecodes | argus/faucet/addresses.py:19-75 | the BIP 173 text that spells 0 to 31 decodes to exactly these under constant 1, in lower and upper case, which fixes the charset, the generators and the prefix expansion |
| AddressExamples.P2wpkhAccepted | argus/faucet/addresses.py:54-113 | the version 0 address of the repository's tests is accepted under "tb" and carries the bytes 0 to 19 |
| AddressExamples.Version1Accepted | argus/faucet/addresses.py:54-113 | the version 1 address tb1pqqqsqe4swg is accepted under "tb" with the other constant |
| Segwit.SegwitUnique | argus/faucet/addresses.py:96-113 | an accepted string encodes one prefix, one version and one program only |
| Segwit.EncodedIsAccepted | argus/faucet/addresses.py:54-113 | every good version and program has an accepted address, in lower and in upper case, under any prefix of up to 18 characters |
| Burst.BurstAcceptedIff | argus/faucet/addresses.py:39-113 | altering at most six consecutive characters behind the version character of an accepted address is accepted exactly when the result is the address in all-lower or all-upper case |
| Burst.BurstRejected | argus/faucet/addresses.py:27-113 | with a letter in the prefix any such alteration is rejected |
| CaseFlip.FlippedBurstAccepted | argus/faucet/addresses.py:54-113 | under a prefix without letters an address and the same address with its only six letters in the other case are both accepted |
| Base58.TextBytesBijection | argus/faucet/addresses.py:116-133 | base58 texts and byte strings correspond one to one, leading zeros included |
| Base58.Encode | argus/signetkey.py:68-77 | repeated division and the leading-zero loop produce the base58 text of the payload followed by the first four bytes of sha256(sha256(payload)) |
| Base58.ReadNumber | argus/faucet/addresses.py:118-123 | the character loop yields the denoted number, or None exactly for a foreign character |
| Base58.ShortestBytes | argus/faucet/addresses.py:124 | cutting to (bit_length + 7) // 8 bytes gives the shortest byte string of a positive number |
| Base58.LeadingOnesAreZeros | argus/faucet/addresses.py:125-126 | leading '1' characters are exactly the leading zero digits |
| Base58.Version | argus/faucet/addresses.py:116-133 | returns v exactly when the text is the base58 text of 21 bytes starting with v followed by the first four bytes of their double hash, and None when there are no such bytes |
| Base58.AlphabetMeaning | argus/faucet/addresses.py:20 | the alphabet is every digit and ASCII letter but 0, I, O and l, in ASCII order |
| Base58.RoundTrip | argus/signetkey.py:68-77 | an encoded payload has a version exactly when it is 21 bytes long, and it is the first byte |
| Base58.CheckedTextInjective | argus/signetkey.py:68-77 | two payloads with one text are equal |
| Addresses.IsValidAddress | argus/faucet/addresses.py:136-146 | accepts exactly the payment addresses of the chain; written out: segwit under bcrt on regtest, under tb on test, testnet4 and signet, base58 version 0x6F or 0xC4 on these four, and nothing on any other chain |
| Addresses.ChainsSpelledOut | argus/faucet/addresses.py:27-36 | the prefix table and the version set mean just that |
| Addresses.EncodedAddressesAccepted | argus/faucet/addresses.py:136-146 | whatever the segwit or the base58check encoder produces for a chain's prefix or versions is accepted on that chain |
| Addresses.NoSpaceInAddress | argus/faucet/addresses.py:138-139 | a payment address is never empty and holds no whitespace, so the early tests change no answer |
| Addresses.VersionUnique | argus/faucet/addresses.py:116-133 | a base58check text has at most one version byte |
| History.HistoryStore.WriteSamples | argus/web/history.py:103-137 | one tick's samples replace the raw rows of their keys, the last of a key winning, and touch nothing else |
| History.HistoryStore.RollupInto | argus/web/history.py:140-177 | recomputes each bucket with a source row since the start, from those rows only, and keeps every other row |
| History.HistoryStore.Rollup | argus/web/history.py:180-188 | raw to hour and hour to day, each from its own unaligned start: seconds 7200 and 172800 before now |
| History.HistoryStore.Prune | argus/web/history.py:191-212 | keeps exactly the rows inside their tier's horizon |
| History.Drive | argus/web/sampler.py:216-220 | the loop write, rollup, prune leaves the table of the run function the theorems are about |
| HistoryFacts.SumSplit | argus/web/history.py:153-174 | totals and last disk value of a window are those of its two halves combined, wherever it is cut |
| HistoryFacts.DocumentedWindow | argus/web/history.py:143-144 | taking rows by bucket floor is the timestamp test with the start rounded up to a bucket |
| HistoryFacts.RolledAt | argus/web/history.py:140-177 | what a rollup leaves under any key: a recomputed row exactly for bucket starts with a source row since the start |
| HistoryFacts.SumPeaks | argus/web/history.py:161-163 | the peak columns of a window's totals are reached by some row of it and exceeded by none |
| HistoryFacts.RolledPeaks | argus/web/history.py:153-174 | so every row a rollup writes carries the true peaks of the rows it was made from |
| HistoryFacts.PrunedAt | argus/web/history.py:191-212 | what a prune leaves under any key: rows at most the retention old, in hours of 3600 or days of 86400 seconds |
| HistoryRuns.RawRows | argus/web/history.py:103-137 | over every run, a raw row inside retention is the row last written for its key, and nothing else |
| HistoryRuns.HourRows | argus/web/history.py:140-212 | over every run, for any retention and either window, there is an hour row exactly for the sampled hours inside hourly retention, and it is the rollup of the samples the last rollup to rewrite it could see |
| HistoryWindow.MissingIffStraddled | argus/web/history.py:172-188 | samples are missing from what the last rollup saw of a bucket exactly when some tick's view started between two of its samples |
| HistoryWindow.HoursConserved | argus/web/history.py:140-212 | for any retention and either window, a bucket no tick straddled has, while kept, exactly the row of all its samples, and none if it has none |
| HistoryWindow.HourExactIff | argus/web/history.py:140-212 | and a row is exact if and only if no tick straddled its bucket |
| HistoryWindow.RecentHoursConserved | argus/web/history.py:180-188 | as coded or documented: after every tick an hour that starts no earlier than the rollup's view is exact, which with two hours of raw rows is, as coded, every hour starting at or after now - 2 h |
| HistoryWindow.SealedHoursConserved | argus/web/history.py:143-151 | as documented, with two hours of raw rows: every kept hour row of every run is exact and no hour is missing |
| HistoryWindow.ShortRunLosesBytes | argus/web/history.py:172-188 | a run of the sampler whose sealed hour row holds 7 of 12 bytes as coded, under any accepted retention, and 12 as documented |
| HistoryWindow.OneHourOfRawRowsLosesBytes | argus/config.py:1285-1300 | a run of the sampler that leaves 7 of 12 bytes in an hour row under one hour of raw retention, with either window |
| HistoryWindow.HoursExactIff | argus/web/history.py:140-212 | over all runs of the sampler (a host row on every tick, dt the interval or the time elapsed), every hour row is exact if and only if the window is the documented one and raw rows are kept for two hours |
| HistoryDays.Regrouped | argus/web/history.py:153-174 | totals over exact hour rows are the raw totals up to the rounding of the memory average |
| HistoryDays.TwoRoundings | argus/web/history.py:153-174 | two floored divisions by the weights lose less than two units of the true mean |
| HistoryDayRuns.DayRows | argus/web/history.py:140-212 | over every run, for any accepted retention and either window, there is a day row exactly for the sampled days inside daily retention, rolled up from the hour rows of the last tick whose window still held one of the day |
| HistoryDayRuns.DaysConserved | argus/web/history.py:153-174 | the row of a day that was never cut holds the sums and maxima of all its raw samples, the exact interval-weighted cpu mean, a memory mean in (true - 2, true] and the last disk value |
| HistoryDayRuns.DayExactIff | argus/web/history.py:140-212 | and a day row does so if and only if no rollup ever cut an hour of the day, or the day, between two of its samples |
| HistoryDaySettings.SealedDaysConserved | argus/web/history.py:143-151 | as documented, with two hours of raw rows and hour rows that outlive their days: every kept day row of every run does so and no day is missing |
| HistoryDaySettings.ShortRunLosesADay | argus/web/history.py:172-188 | as coded, under any accepted retention, a run of the sampler whose day row holds 10 of 15 bytes |
| HistoryDaySettings.LongRunCut | argus/config.py:1285-1300 | a run of the sampler whose day row is cut under one day of hour rows and two of day rows, with either window |
| HistoryDaySettings.DaysExactIff | argus/web/history.py:140-212 | over all runs of the sampler, every day row is true to its samples if and only if the window is the documented one, raw rows are kept for two hours and hour rows outlive the days they belong to |
| HistorySamples.LogIsSamples | argus/web/history.py:103-137 | the log's sums over any window are the bytes and seconds of the samples handed to it |
| HistorySamples.RecentHourIsSampled | argus/web/history.py:180-188 | for any retention and either window: the row of a kept hour the rollup sees from its start exists exactly when something was sampled in it, and says every byte, every second, both maxima, the exact weighted cpu mean and the floored memory mean |
| HistorySamples.HourIsSampledIff | argus/web/history.py:140-212 | for any retention and either window, a kept hour row carries every sampled byte and second if and only if no rollup cut the hour |
| HistorySamples.DayIsSampledIff | argus/web/history.py:140-212 | a kept day row does if and only if no rollup cut the day or one of its hours |
| HistorySamples.KeptRowsAreSampled | argus/web/history.py:143-151 | as documented, under the settings that never lose a sample: every kept hour and day row exists exactly when something was sampled in it and carries every sampled byte and second |
| HistorySamples.RowsAtMostSampled | argus/web/history.py:140-212 | for any accepted retention and either window, however often it was rewritten, no hour or day row says more bytes or seconds than were sampled in its hour or day |
| HistoryReadings.DiskIsSampled | argus/web/history.py:164-169 | the disk reading a rollup takes is that of the latest sample of the window that has one |
| HistoryReadings.HourStates | argus/web/history.py:140-212 | every hour row of every run, for any retention and either window, states the samples its last rewriting saw: bytes, seconds, the largest cpu and memory reading, the exact interval-weighted mean load, the floored mean memory and the latest disk reading |
| HistoryReadings.DayStates | argus/web/history.py:140-212 | a day row never cut states all of its day's samples in the same way, its memory mean less than two units low |
| HistoryReadings.KeptRowsState | argus/web/history.py:143-151 | as documented, under the settings that never lose a sample, every kept hour and day row does |
| HistorySteady.SteadyHour | argus/web/history.py:172-188 | as coded, with at least two hours of raw rows and ticks at most gap seconds apart, the row of an hour that ended two hours ago carries the bytes and seconds of a window of at most gap seconds of it |
| HistorySteady.SteadyDay | argus/web/history.py:172-188 | with two days of hour rows as well, and gap at most an hour, the row of a day that ended two days ago carries those of at most gap seconds of the day |
| HistorySteady.RegularRowsAreOneSample | argus/web/history.py:172-188 | at a regular pace of at most an hour both carry nothing or the bytes and seconds of one sample |
| Sampler.Sampler.Observe | argus/web/sampler.py:183-197 | one tick's loop credits each series the deltas of its containers and keeps as baselines exactly the names met |
| Sampler.TickCreditsDeltas | argus/web/sampler.py:183-197 | a series gets the sum of its containers' deltas against the old baselines, and a name's baseline becomes its reading or is forgotten |
| Sampler.MirrorReads | argus/web/sampler.py:190-193 | the mirrored samples of the second counter read the same containers and series with their transmit bytes |
| Sampler.NeverOvercounts | argus/web/sampler.py:59-68 | for every history of traffic, restarts, absences and failed reads the recorded bytes never exceed those moved since the first sighting |
| Sampler.SteadyIsExact | argus/web/sampler.py:59-68 | without restart or gap they equal the bytes moved up to the last sighting |
| Sampler.ExactIff | argus/web/sampler.py:59-68 | over every history the recorded bytes equal those moved up to the last sighting if and only if no sighting lost any: none found unsaved bytes after a gap, nor a restart that hid unseen bytes or left the counter at or above a positive baseline |
| Sampler.SightingRecords | argus/web/sampler.py:59-68 | a sighting records all pending bytes exactly when it loses nothing, and a counter below its baseline is recorded whole |
| Sampler.SamplerNeverOvercounts | argus/web/sampler.py:59-197 | the sampler's own ticks record for a name exactly what that accounting says, so both bounds hold of them |
| Sampler.SamplerExactIff | argus/web/sampler.py:59-197 | and the sampler's own ticks record everything under exactly that condition |
| SamplerSeries.CreditedAtMost | argus/web/sampler.py:183-197 | the bytes the ticks of any window credit to a series are at most those its containers moved between the tick before the window and the last one in it, over traffic, restarts of containers and sampler, absences and failed reads |
| SamplerSeries.KeptRowsAtMostMoved | argus/web/sampler.py:169-222 | end to end, for any accepted retention and either window: a kept hour or day row holds at most the bytes its series' containers moved between the last tick before that hour or day and the last one in it, whichever ticks failed to write |
| FaucetStore.FaucetStore.IncrementUsage | argus/faucet/store.py:208-225 | one more claim on the day, whether or not the day had a row |
| FaucetStore.FaucetStore.RecordPowClaim | argus/faucet/store.py:308-332 | one more proof-of-work claim of the visitor on the day, row or no row |
| FaucetStore.FaucetStore.RecordIpClaim | argus/faucet/store.py:179-189 | the visitor's row becomes this moment |
| FaucetStore.FaucetStore.RedeemNonce | argus/faucet/store.py:276-285 | wins exactly when the nonce was unspent, and spends it; a loser changes nothing |
| FaucetStore.FaucetStore.RunMaintenance | argus/faucet/maintenance.py:27-33 | leaves of the usage log the rows of the 365 days before today and later, unexpired nonces, proof-of-work counts from yesterday on and claims at most 86400 seconds old, unchanged, and no other row |
| FaucetStore.FaucetStore.ClaimMaintenanceRun | argus/faucet/store.py:344-357 | succeeds exactly when the last run is an interval old, and then becomes the last run |
| Usage.BusiestDay | argus/faucet/store.py:257-262 | the largest logged count of the network, 0 when nothing is logged |
| Usage.UsageStats | argus/faucet/store.py:236-264 | the sum over the 365 days ending today of each logged count, or of the larger of ten and the busiest day |
| Usage.PurgeKeepsTheYear | argus/faucet/store.py:236-270 | a purge never changes an expectation computed at or after its time, apart from the busiest day it remembers |
| Usage.ExpectedAtLeastOnePerDay | argus/faucet/store.py:236-264 | with positive counts the expectation is at least 365 |
| Usage.TenADayIff | argus/faucet/store.py:242-244 | it is at least 3650 if and only if what the logged days lack to ten claims each is at most the busiest day's excess over ten, times the days without a row |
| Usage.NoDayUnderTen | argus/faucet/store.py:242-244 | so it is whenever no logged day of the year saw fewer than ten claims |
| Usage.FullyLoggedYear | argus/faucet/store.py:242-244 | a fully logged year reaches it exactly with 3650 claims, however busy its busiest day |
| Usage.TenADayOnQuietNetwork | argus/faucet/store.py:242-244 | where no day exceeded ten claims, if and only if every logged day of the window saw exactly ten |
| Usage.OneClaimBreaksTheBound | argus/faucet/store.py:242-244 | a single claim ever, made today, gives 3641 |
| Faucet.VerifyPow | argus/faucet/app.py:254-281 | a proof is good if and only if proofs are available and it solves an issued, unexpired challenge for exactly this network, address and amount; none is reported only when none was sent |
| Faucet.ComputeLimits | argus/faucet/rules.py:77-116 | the two balance-derived ceilings, absent when disabled or when the balance is unknown |
| Faucet.Evaluate | argus/faucet/rules.py:209-216 | reports exactly the broken rules, each once, in the order of the rule list, with the time to come back: 86400 s after the last free claim, the next UTC midnight for the proof cap, none for amounts |
| Faucet.NoneFailing | argus/faucet/rules.py:126-216 | the report is empty exactly when every rule passes |
| Faucet.CheckMeaning | argus/faucet/rules.py:126-196 | a rule fails exactly when the request breaks it, stated without its code |
| Faucet.Process | argus/faucet/app.py:306-438 | one request end to end: the answer and every table, for each order of failure, redeem, send and record |
| FaucetRuns.SameAnswer | argus/faucet/app.py:306-438 | a request gets the same answer from a purged store and from one that kept everything, and the stores stay related |
| FaucetRuns.PurgingRefinesNeverForgetting | argus/faucet/maintenance.py:27-33 | over every run of requests and purges, each answer is the one a store that never deletes claims, counts or nonces would give |
| FaucetRuns.FreePayoutsADayApart | argus/faucet/rules.py:126-139 | over every run, two free payouts to one visitor of a network are at least 86400 s apart |
| FaucetRuns.PowCountsExact | argus/faucet/store.py:308-332 | the never-forgetting count of a visitor and day is the number of such payouts, and within a positive cap |
| FaucetRuns.PowPayoutsCapped | argus/faucet/rules.py:179-196 | over every run with purging, a visitor's proof-of-work payouts of a UTC day stay within a positive cap |
| FaucetRuns.DrainBound | argus/faucet/rules.py:155-166 | with the balance cap on and the balance read, k payouts leave at least start * (1 - f)^k |
| FaucetRuns.UsageCountsPositive | argus/faucet/store.py:208-225 | over every run logged days hold at least one claim, which the usage bound needs |
| FaucetAcceptance.DailyCapMeaning | argus/faucet/rules.py:100-105 | an amount is within the daily cap exactly when every claim expected over the horizon could be paid it from the balance |
| FaucetAcceptance.PaysExactly | argus/faucet/app.py:306-438 | a request is paid if and only if it is well-formed, approved, routable, within minimum and balance limits, and either carries an unspent live proof for itself below the daily cap or none and has its free claim left |
| FaucetAcceptance.RefusalsChangeNothing | argus/faucet/app.py:306-438 | a request that is not paid changes no table, except that a failed send leaves its challenge spent |
| FaucetReports.PowErrorIff | argus/faucet/pow.py:339-386 | the proof-of-work error told is the first that applies, of unavailable, bad signature, other network, other address, other amount, expired, unsolved |
| FaucetReports.ReportTells | argus/faucet/app.py:306-392 | every failure that applies is told, once, in the documented order, and nothing else, each rule said of the visitor's history and the wallet |
| FaucetReports.AnswerExactly | argus/faucet/app.py:306-438 | which of the answers a request gets, if and only if, and with which content |
| FaucetReports.PayoutEffects | argus/faucet/app.py:410-425 | a payout adds one log entry and one to the day's count; a free one stamps only the visitor's claim, a proven one adds only to the visitor's proofs and spends its challenge |
| FaucetAcceptance.LogIsReported | argus/faucet/store.py:144-153 | over every run the payout log is, in order, exactly the answers that reported success |
| FaucetAcceptance.FirstPayoutBreaksTheBound | argus/faucet/store.py:236-264 | the run of one paid request leaves a table whose expectation is 3641 claims |
| FaucetWorkers.AloneIsProcessed | argus/faucet/app.py:306-438 | a worker executing statement by statement undisturbed leaves exactly the tables of one whole request |
| FaucetInterleaved.AlwaysSound | argus/faucet/app.py:394-409 | in every interleaving, a worker about to redeem holds its own request's unexpired challenge, and spent rows carry the issued expiry |
| FaucetInterleaved.PurgeProgress | argus/faucet/store.py:288-291 | a nonce purge deletes only rows of expired challenges, so without a live request the nonce stays unwinnable |
| FaucetInterleaved.SendsAndHolders | argus/faucet/app.py:394-417 | sends plus pending sends for a nonce never exceed one more than the overtaking purges; at the bound the nonce is spent or dead |
| FaucetInterleaved.AtMostOneSend | argus/faucet/app.py:394-417 | in every interleaving of workers, crashes, ticks and purges, one challenge leads to at most one send unless a purge overtakes a request |
| FaucetCounters.CountersExact | argus/faucet/store.py:208-225 | in every interleaving a usage or proof-of-work count inside its retention, and a network's payout log, equals the payouts made less those still owed by a running worker or abandoned by a crash |
| FaucetCounters.PowClaimsBalanced | argus/faucet/store.py:308-332 | each statement adds to the proof-of-work count exactly what it settles of the worker's debt, whichever of UPDATE and INSERT runs |
| FaucetCounters.ClaimsAnIntervalApart | argus/faucet/store.py:344-357 | in every interleaving, successful maintenance claims in commit order carry times at least an interval apart |
| FaucetRaces.OvertakenChallengePaysTwice | argus/faucet/app.py:394-417 | a run with exactly one overtaking purge and exactly two sends for one challenge: the bound is reached |
| FaucetRaces.DailyLimitRaces | argus/faucet/rules.py:126-139 | a run in which two requests of one visitor are both paid free at the same moment |
| FaucetRaces.RecordedClaimIsHonoured | argus/faucet/rules.py:126-139 | a free request checked after a recorded claim passes only a day later, in every interleaving without an older claim written over it or a purge timed after its clock reading |
| FaucetBounds.PowOvershootBounded | argus/faucet/rules.py:179-196 | in every interleaving a visitor's proof-of-work payouts of a retained day are at most the cap, less one, plus the workers and the payouts abandoned by a crash |
| FaucetBounds.FreeOvershootBounded | argus/faucet/rules.py:126-139 | in every interleaving a visitor's free payouts of any one day are at most the workers, times one more than the purges and older claims that reopened it, plus those abandoned by a crash |
| Ring.Plan | argus/builders/lnd.py:615-638 | the script's scan, band test and minimum give the planned payment whose meaning AmountMeaning states |
| Ring.PlanNeedsTwo | argus/builders/lnd.py:615-638 | for any listing: a plan depends on the active channels only, needs exactly two, and moves the smaller of what the fuller sheds and the emptier takes, last hop the emptier's peer |
| Ring.AmountMeaning | argus/builders/lnd.py:617-637 | the computed amount reaches m exactly when both channels of the node are off half by m the same way round, in either listing order, and the last hop then undoes it |
| Ring.LiquidityRing.RebalanceNode | argus/builders/lnd.py:615-655 | one call shifts all three channels by the planned amount or changes nothing |
| Ring.LiquidityRing.Cycle | argus/builders/lnd.py:657-663 | one turn of the loop is the three nodes' calls in order |
| Ring.Conserved | argus/builders/lnd.py:615-663 | over every sequence of calls capacity and each node's total balance are unchanged |
| Ring.MoveLowersImbalance | argus/builders/lnd.py:615-655 | a successful payment lowers the doubled sum of deviations from half by at least twice the amount, less two for an odd capacity |
| Ring.MovesAreBounded | argus/builders/lnd.py:657-663 | so the number of moves in any run is bounded by the initial imbalance over what the minimum amount is worth |
| Ring.AtRestMeaning | argus/builders/lnd.py:617-638 | no node computes an amount of m exactly when no node has two channels off the same way by m |
| Ring.Fixpoint | argus/builders/lnd.py:632-638 | when no computed amount reaches m, at most one channel is off by m in each direction and the median is within m of half; for even capacities exactly then |
| RingRest.QuietMeaning | argus/builders/lnd.py:615-638 | the script plans nothing exactly when every node is in the band or has no two channels off the same way by the minimum |
| RingRest.QuietBounds | argus/builders/lnd.py:615-638 | then at most one channel is off in each direction, and the median within half, by the larger of the band's distance from half and the minimum |
| RingRest.BandHidesSkew | argus/builders/lnd.py:630-631 | a ring skewed by ten times the minimum in which the script plans nothing |
| RingRest.NothingMovesIff | argus/builders/lnd.py:648-655 | no call of any node moves anything exactly when every planned payment is more than the channel its node cannot see can carry |
| RingRest.PlanIgnoresOrder | argus/builders/lnd.py:617-638 | a node plans the same payment whichever of its channels is listed first |
| RingRest.LoopSettles | argus/builders/lnd.py:657-663 | with every payment routed, after more turns than the initial imbalance holds gains of the minimum amount no call moves anything again, node totals are unchanged and every payment still planned is more than the unseen channel can carry |
| RingRest.GeneratedRingSettles | argus/builders/lnd.py:657-663 | under the generated minimum 1504 routed turns settle a ring of any capacity and balances |
| Ring.FeasibleIffMiddleCarries | argus/builders/lnd.py:648-654 | a planned payment can be routed exactly when the channel the node does not see can carry it |
| Ring.FreshRingBalances | argus/builders/lnd.py:563-585 | from three freshly opened channels any node's first routed call reaches half each, up to an odd sat, the state the opener's payment aims for |
| Ring.StuckRing | argus/builders/lnd.py:632-655 | with two full first ends and an empty third no call ever moves anything although the ring is not at rest |
| PowTarget.HexToBytes32 | argus/web/static/faucet-pow-worker.js:126-131 | the bytes denote the number of the first 64 digits of the padded hexadecimal text |
| PowTarget.LessThanTarget | argus/web/static/faucet-pow-worker.js:118-124 | the byte-wise loop is the strict big-endian comparison of the two numbers |
| PowTarget.PaddedNumeral | argus/faucet/app.py:565 | for every target below 2^256, the sent text padded to 64 digits denotes that target |
| PowTarget.NumeralValue | argus/faucet/pow.py:315 | the numeral written into the token reads back as the target |
| PowTarget.SolutionNamesDistinct | argus/web/static/faucet-pow-worker.js:138-156 | different worker and counter pairs never name one solution |
| PowTarget.SolutionNameFits | argus/faucet/pow.py:382 | no solution of eight workers is refused for its length, up to the counter 2^53 where a JavaScript number stops growing: it has at most 18 characters of 80 |
| PowTarget.Search | argus/web/static/faucet-pow-worker.js:135-174 | over any number of attempts a worker reports the first counter the server's check accepts, which is the first whose digest of token, worker, dash and counter is below the target, and stays silent only when it accepts none of those tried, never trying one past 2^53 |
| Difficulty.SubsidyFalls | argus/faucet/difficulty.py:42-47 | the block subsidy never rises with height |
| Difficulty.SubsidyHalves | argus/faucet/difficulty.py:42-47 | fifty coins for the first 210000 blocks, halved and rounded down every 210000, nothing after 64 halvings |
| Difficulty.PeggedScale | argus/faucet/pow.py:225-233 | between the clamps seconds * sha256d speed * subsidy equals factor * amount * 2^32, and outside them the clamp applies |
| Difficulty.FlatScale | argus/faucet/pow.py:234-244 | elsewhere seconds * 100000 equals rate * amount * balance factor * demand factor, in the same way |
| Difficulty.AnchorScale | argus/faucet/pow.py:235-238 | the balance factor grows linearly from one at the full balance to its maximum at zero |
| Difficulty.DemandScale | argus/faucet/pow.py:239-243 | the demand factor is claims over target, kept between one and its maximum |
| Difficulty.OfferedIff | argus/faucet/pow.py:225-228 | proof of work is not offered exactly on a value-pegged network without a positive subsidy |
| Difficulty.HarderTakesLonger | argus/faucet/pow.py:205-244 | more amount, less balance, more claims or more height never takes fewer seconds, nor is offered where the easier request is not |
| Difficulty.HarderTarget | argus/faucet/pow.py:205-255 | nor gets an easier hash target |
| Difficulty.ClampsHold | argus/faucet/pow.py:205-244 | seconds are never under the minimum, and under the cap for all requests exactly when the minimum is |
| Difficulty.DemandPeaks | argus/faucet/pow.py:239-243 | the demand factor is at its maximum exactly from target times maximum claims on |
| Difficulty.TargetMatchesExpected | argus/faucet/pow.py:247-255 | target * expected is at most 2^256, and the next larger target would exceed it unless the range ends |
| Difficulty.TargetTakesSeconds | argus/faucet/pow.py:247-255 | target * seconds * speed is at most 2^256, and the next larger target would exceed it unless the range ends |
| Difficulty.TimeToSolve | argus/faucet/pow.py:258-261 | a token lives at least twice the estimate and at least the setting, and no whole second more than needed |
| Ports.NetworkPorts | argus/ports.py:39-99 | succeeds exactly when the indexers fit and every override names a known port; the map then has exactly the network's names, each with its override or default |
| Ports.OverridePrecedence | argus/ports.py:79-97 | a named override wins, then one of Bitcart's four own, then the default |
| Ports.LayoutInNumbers | argus/constants.py:152-238 | without overrides every family sits at its documented offset in the block of a thousand ports from 30000 on, and up to 15 indexers are accepted |
| Ports.Allocate | argus/ports.py:102-123 | succeeds exactly when every network does and no two assigned names share a port; a reported collision names two that do |
| Ports.DefaultLayoutInjective | argus/constants.py:152-238 | without overrides no two occupied names share a port, for any enabled networks, up to 15 indexers, 3 guardians and pools of 50, interiors included |
| Ports.DefaultsAlwaysAllocate | argus/ports.py:34-123 | so every such configuration is allocated, inside the seven blocks |
| Ports.NobodyClashesIff | argus/bitcart.py:115-116 | for any overrides, no two services listen on one port exactly when no two services other than pools are assigned one port and none is assigned a port of either pool of a network, which stays at the block's offset |
| Ports.SafeIsAllocated | argus/ports.py:102-123 | networks without a clash and without an overridden pool base are never refused |
| Ports.OverrideIntoPool | argus/ports.py:72-123 | an override that allocation accepts and that lands inside a pool |
| Ports.MovedBaseHidesClash | argus/bitcart.py:115-116 | an overridden pool base frees its number for another service, which allocation accepts and which clashes with the pool |
| Ports.MovedBaseFalseAlarm | argus/ports.py:72-123 | a pool base overridden onto another service is refused although nothing clashes |

## Left out

- Compose, Caddy, Tor, firewall and Dockerfile rendering: string templates with little state.
- Docker, LND, bitcoind, mempool and mail calls: outcomes are parameters of the steps.
- Flask routing, templates and charts, and `_free_available`, which only repeats the first rule's test for display.
- SHA-256, HMAC, yespower, JSON and base64 internals: parameters or idealised.
- Malformed token syntax: every token that does not authenticate is `Faucet.Forged`; the error messages are not distinguished further.
- Elliptic-curve arithmetic in `signetkey.py` and `onionkey.py`, and `claim.py` block assembly.
- Configuration parsing and validation, except the bounds the theorems name.
- IEEE rounding in the difficulty and balance formulas, and Decimal parsing of amounts.
- Lightning routing, fees, reserves and the awk parsing of channel listings.
- `tier_for_range`, `load_series` and `query` of the metrics store, host-side readings and the disk scan of the sampler: single reads.
- The subsidy cache and the height fetch of `difficulty.py`.
- History.HistoryStore.WriteSamples: the deleted-and-reinserted row order of INSERT OR REPLACE is not modelled, because no query of the store depends on it.
- HistoryWindow.HourExactIff: assumes intervals of at least a second, as the sampler records them (`argus/web/sampler.py:171-172`).
- FaucetRuns.DrainBound: assumes no network fees and no deposits, and that every request of the network reads the true balance.
- FaucetAcceptance.LogIsReported: a network reset purges that network's payout rows (`argus/faucet/reset.py:24`, `argus/faucet/store.py:166-173`) and is not an event of these runs.
- FaucetInterleaved.AtMostOneSend: counts calls that send; whether a failed call still broadcast is the node's affair.
- SamplerSeries.KeptRowsAtMostMoved: leaves out the host series, whose counters are read the same way from one file.
- RingRest.LoopSettles: the loop as such is endless; that unrouted turns also stop moving balance is `Ring.MovesAreBounded`.
- Ring.Fixpoint: speaks of the amounts alone, the band test is in `RingRest`; for odd capacities only one direction of the first statement holds, because the two halves differ by one sat.
- PowTarget.Search: the endless loop is cut after any given number of attempts; progress messages are left out.
- Ports.Allocate: which of several collisions is reported depends on dictionary order, which is arbitrary here.
