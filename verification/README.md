# The device mapper, verified

This project models the parts of a KubeEdge device mapper that keep state or parse text, and proves
what survives every input and every run of them. Each module follows one part of the program. Where
the program changes things in place, the model does too: character buffers and twin tables are
arrays, devices, the device manager and the allocator are classes, and every such method is proved
against a specification on values, about which the lemmas speak.

| module | part of the program |
|---|---|
| `CText` | C strings, `atoi`, `snprintf`, nullable pointers |
| `TextLaws` | what the character classes and number scanners amount to |
| `HostText` | the in-place host and port routines |
| `JsonScan` | the JSON scanner |
| `Wave` | the simulated temperature |
| `TwinSteps` | the atomic steps of the competing writers, and runs of them |
| `Arrivals` | what each step leaves in registers and twins, told in names, texts and numbers |
| `Coherence` | which agreement of `reported` and register survives every run |
| `Passes` | one pass of the data thread |
| `Wire`, `Linking` | conversion of twins to the wire and back, building and linking an instance |
| `Devices` | the device object: construction, rebuild, start, stop, reconciliation |
| `Manager` | the growable device array and its lookup |
| `Server` | the update call with its forced, normal and fallback paths |
| `LostUpdates` | three update calls that lose a write |
| `ConfigParse` | the flag machine over YAML tokens |
| `Lifecycle` | start, stop, cancellation and cleanup as interleaved steps of all threads |
| `Ownership` | which blocks of memory a device owns, from construction to destruction |

How the surroundings appear:

- Whether a Modbus write gets through is arbitrary; a success sets the register, a failure leaves it.
  Registers are keyed by endpoint and offset, so the writers share a register only where they resolve
  the same host and port.
- Each call of a writer is one atomic step; `Run` over a sequence of steps is any interleaving.
- A deadline (`wait_for` on a `std::async` future) replaces the result and does not stop the work,
  because the destructor of such a future waits for it ([futures.async] of ISO C++).
- Environment variables, time stamps and the YAML token stream are inputs.

What the proofs found out about the code:

- A fallback direct write changes the register and not `reported`. A later desired value equal to the
  stale `reported` is then skipped although the call reports success. `Coherence.DeliveredUnlessDirty`
  says exactly when a desired value does not arrive, and `LostUpdates.ThreeRequestsLoseOne` gives three
  update calls that all answer OK and leave the register at another value than wanted and reported.
- Coherence of `reported` and register survives the acknowledged writers if and only if it held at
  first, no two twins share a register (simulated ones that report nothing apart), and all writers write
  to one endpoint (`Coherence.CoherenceNeeds`). The last is not so in general: direct and forced writes
  follow the environment as it is, and reconciliation follows it, cleaned, only where the configuration
  gives no usable host or port. `Devices.EndpointsAgree` says for every configuration and environment
  when the two agree. Without a configuration they part as soon as MAPPER_MODBUS_ADDR names another host
  than 127.0.0.1 (`Devices.UnconfiguredEndpoint`).
- The comment at device/device.c:99 promises to drop up to three stray escape letters; the code drops
  one or two. The promise fails for exactly the texts with three such letters in front of a digit, which
  keep all three (`HostText.PromiseFailsOnThree`). The model follows the code.
- The register call links no twins (grpcclient/register.cc:142), so the rebuild at the first start
  replaces them and the cloud's desired values are lost (`Devices.DesiredNeedsModel`).
- `device_new` sets the namespace to "test" whatever was given (device/device.c:247) and loses the
  copy it made before; the ids of the instance and of the model are never freed, and a rebuild frees
  the twin array but not what the twins own. `Ownership.Lifetime` counts the leaked blocks exactly.
- A device can be freed, and its mutex destroyed, while the mutex is locked: exactly where the data thread
  or the start thread died in the middle of its work on the device (`Lifecycle.EveryRunIsSafe`), and such
  a run exists (`Lifecycle.FreedWhileLocked`).
- The configuration parser never returns on a token stream whose end it does not see, as after an error of
  the scanner; `ConfigParse.SpinsWithoutEnd` says for exactly which streams.
- The configuration parser is not a path lookup. `ConfigParse.MachineReadsWalk` says what it reads from
  every document, and `ConfigParse.RightIffLastIsTaken` when that is the last scalar at the path. Inside
  a known section a nested mapping or an indented sequence ends the section, and the entries of the
  nested mapping count as entries of the section (`ConfigParse.NestingEndsSection`,
  `ConfigParse.NestingMisread`); a sequence at the indentation of its key does no harm
  (`ConfigParse.DashesAreHarmless`). A key without a value hides the key behind it on the top level
  (`ConfigParse.MissingValueHidesNext`), and at the end of a section it keeps the section open, so that
  the next mapping is read into it (`ConfigParse.MissingValueKeepsSectionOpen`).

The main results, where to start reading:

1. `Coherence.RunIsTracked`, `Coherence.DeliveredUnlessDirty`, `Coherence.CoherenceNeeds` and
   `LostUpdates.ThreeRequestsLoseOne` on the competing writers;
2. `TextLaws.AtoiReads`, `Arrivals.DealLeavesNumber` and `Arrivals.ForcedIsNotUndone` on what arrives in
   the registers, `Passes.PassConservesWork` and `Devices.Device.DataPass` on the data thread;
3. `Server.ApplyAll`, `Server.LastPropertyWins` and `Server.UpdateDevice` on the update call;
4. `Lifecycle.EveryRunIsSafe`, `Lifecycle.EveryDeviceIsReached` and `Lifecycle.EveryDeviceComesUp` on
   starting, stopping and freeing;
5. `Ownership.New` and `Ownership.Lifetime` on memory;
6. `ConfigParse.MachineReadsWalk`, `ConfigParse.RightIffLastIsTaken`,
   `ConfigParse.TextsOfGoodDocument` and `ConfigParse.NumbersOfGoodDocument` on the configuration;
7. `JsonScan.ScanUndoesPrint`, `Wire.RoundTripOnSelf`, `Manager.LookupUndoesResourceId`,
   `Linking.TwinsLinkToFirst`, `HostText.NormalIsIdempotent` and `Wave.WaveIsTriangle` on the rest.

## Model

| member | source | states |
|---|---|---|
| `TextLaws.AtoiReads` | device/device.c:753 | white space, a sign, digits and what is no digit behind them are read as the number the digits spell, kept to 32 bits |
| `TextLaws.NumberGrows` | device/device.c:753 | a digit more makes the number ten times as large and adds the digit |
| `TextLaws.AtoiUndoesDecimal` | grpcserver/server.cc:302 | reading a printed number gives it back, for every 32-bit number |
| `HostText.TrimStr` | device/device.c:68-77 | in the buffer, the text becomes its trim |
| `HostText.TrimIsMaximal` | device/device.c:68-77 | whatever white space surrounds a text with tight ends, the trim is that text |
| `HostText.TrimSplits` | device/device.c:68-77 | every text is white space, its trim, white space, and the trim has tight ends |
| `HostText.SanitizeHost` | device/device.c:80-94 | in the buffer, the text becomes the filter of its allowed characters |
| `HostText.AllowedCharacters` | device/device.c:80-94 | the allowed characters are the letters, the digits and the four marks |
| `HostText.KeepConcat` | device/device.c:80-94 | the filter works on each part alone and keeps the order of the parts |
| `HostText.KeepFixes` | device/device.c:80-94 | the filter changes nothing exactly where all characters are allowed |
| `HostText.TrimIsRedundant` | device/device.c:68-94 | trimming before filtering makes no difference |
| `HostText.CleanupEscapePrefix` | device/device.c:97-111 | in the buffer, one or two escape letters in front of a digit go, and nothing else |
| `HostText.EscapesGo` | device/device.c:97-111 | one or two of n, t and r go from in front of a digit |
| `HostText.PromiseFailsOnThree` | device/device.c:97-111 | the promise of the comment above is kept for every text but those with exactly three escape letters in front of a digit, which stay as they are |
| `HostText.NormalizeHostPort` | device/device.c:113-139 | the buffer gets the normal host and the call returns the normal port |
| `HostText.NormalIsUsable` | device/device.c:113-139 | for every input and environment the host is not empty, allowed and fits, and the port is in 1..65535 |
| `HostText.HostPrecedence` | device/device.c:113-128 | an allowed host that fits is taken as it is; the host of the environment counts only where the given one has no allowed character, and the default only where there is neither |
| `HostText.PortPrecedence` | device/device.c:129-138 | a given port in 1..65535 is taken; a printed one of the environment counts only otherwise, and 1502 only where there is neither |
| `HostText.NormalIsIdempotent` | device/device.c:113-139 | normalising twice is normalising once, for every input, environment and buffer |
| `JsonScan.JsonGetStr` | device/device.c:20-49 | the buffer gets the value of the key cut to its size, 0 exactly for a value that is not empty, and nothing is written where there is no match |
| `JsonScan.ValueUndoesEscape` | device/device.c:33-47 | reading a quoted value undoes the escaping of quotes and backslashes |
| `JsonScan.ScanUndoesPrint` | device/device.c:20-49 | where the first match of a colon-free key is the key of a printed member, scanning gives its value back, cut to the buffer |
| `JsonScan.ScanReadsBare` | device/device.c:20-49 | likewise for a member whose value has no quotes and ends in front of a comma, a brace, a blank or the end |
| `JsonScan.NumberUndoesPrint` | device/device.c:50-54 | the number of a printed member, quoted or not, is the number that was printed, for every 32-bit number |
| `JsonScan.JsonGetInt` | device/device.c:50-54 | the number of the value, or none where the scan gives none |
| `Wave.Simulation.Step` | device/device.c:142-155 | one step turns round at the ends and moves |
| `Wave.WaveIsTriangle` | device/device.c:142-155 | after n steps the temperature is the triangle wave of period 198, and it never leaves 1..100 |
| `TwinSteps.RunKeepsNames` | device/device.c:715-818 | no writer renames, relinks, adds or drops a twin |
| `Arrivals.DealWritesExactly` | device/device.c:719-752 | a reconciliation attempts a write exactly for a threshold, or a temperature that is not simulated, with a desired text that is not empty and not the reported one; it succeeds exactly in time and with the write it attempts |
| `Arrivals.DealLeavesNumber` | device/device.c:753-793 | a write of a printed 32-bit number that gets through leaves the number in register 1 or 2 and its text in `reported`; one that fails changes nothing |
| `Arrivals.DirectLeavesNumber` | grpcserver/server.cc:293-317 | a direct write leaves the number in the register and changes no twin |
| `Arrivals.ForcedLeavesNumber` | grpcserver/server.cc:97-139 | so does a forced write on the registers |
| `Arrivals.ForcedIsNotUndone` | grpcserver/server.cc:109-133 | after a forced write the first twin of the name wants and reports the text, no other twin changes, and no reconciliation of it has anything to write |
| `Coherence.RunIsTracked` | device/device.c:715-818 | over every run of all writers, the twins whose register differs from `reported` are exactly the dirty ones of the bookkeeping |
| `Coherence.OnlyDirectWritesStale` | grpcserver/server.cc:293-317 | with one endpoint, a twin becomes stale only by a successful direct write of another number than `reported` |
| `Coherence.WritesClean` | device/device.c:794-817 | a successful reconciliation or forced write leaves its twin coherent |
| `Coherence.CoherenceNeeds` | device/device.c:59-64 | the runs without direct writes and simulation all stay coherent if and only if they start so, registers are apart and there is one target |
| `Coherence.DeliveredUnlessStale` | device/device.c:729-733 | a new desired value with successful reconciliation reaches the register unless `reported` already has its text and the twin is stale; success is reported either way |
| `Coherence.DeliveredUnlessDirty` | device/device.c:729-733 | after any run of all writers it reaches the register unless it is the reported text and the bookkeeping of the run has the twin dirty |
| `LostUpdates.ThreeRequestsLoseOne` | grpcserver/server.cc:73-163 | three update calls, 5 then 7 then 5 again, take these steps and answer OK each; after them the twin wants and reports 5 and the register holds 7 |
| `Passes.PassConservesWork` | device/device.c:175-209 | a pass attempts one write for each twin out of sync, and their number drops by exactly the successful writes |
| `Passes.SecondPassIsIdle` | device/device.c:175-209 | after a pass that succeeded throughout, the next one writes nothing and changes nothing that is not simulated |
| `Wire.ConvTwinsToGrpc` | util/parse/type.c:13-52 | each twin becomes its wire form, in order |
| `Wire.ConvGrpcToTwins` | util/parse/type.c:55-93 | the result is the in-order filter of the twins the source list knows, each over the first source twin of its name |
| `Wire.MergeProperty` | util/parse/type.c:71-88 | of several metadata entries with one key the last wins |
| `Wire.ReadsLastEntries` | util/parse/type.c:70-88 | the value is the one that came, time stamp and type are those of the last entries under these keys, and what did not come stays as in the source list |
| `Wire.RoundTrip` | util/parse/type.c:13-93 | there and back against any source list keeps names, values, types and time stamps of every known twin, unset ones included, in order |
| `Wire.RoundTripOnSelf` | util/parse/type.c:13-93 | against the same list nothing is dropped and only links can change; with distinct names nothing does, and everything is kept exactly when equally named twins share their link |
| `Linking.BuildTwins` | util/parse/grpc.c:61-86 | one unlinked twin for each property, with its desired value |
| `Linking.TwinCarriesDesired` | util/parse/grpc.c:71-82 | the twin has the name of the property, no link, nothing reported, and the desired value that came with the last time stamp and type among its metadata |
| `Linking.GetDeviceFromGrpc` | util/parse/grpc.c:192-240 | the joins link twins to properties and properties to the model; without a model nothing is linked |
| `Linking.TwinsLinkToFirst` | util/parse/grpc.c:218-237 | with a model, every twin is linked to the first property of its name, to its own exactly where no earlier one has the name |
| `Linking.PropertiesLinkToModel` | util/parse/grpc.c:218-237 | every property is linked to the first model property of its name, to none exactly where there is none |
| `Devices.ResolveEndpoint` | device/device.c:738-758 | scanning, cleaning and normalising give the endpoint the device writes to |
| `Devices.ConfiguredHostIsUsed` | device/device.c:738-758 | a printed member ip with an allowed host is the host written to in every environment, cut to its buffer and without one or two escape letters in front of a digit |
| `Devices.ConfiguredPortIsUsed` | device/device.c:738-758 | a printed member port in 1..65535, quoted or not, is the port written to in every environment |
| `Devices.DirectTarget` | grpcserver/server.cc:256-262 | direct writes go to the host of the environment as it is and to the port printed there, and to 127.0.0.1 and 1502 where it names none |
| `Devices.OneHost` | device/device.c:113-128 | for every configuration and environment, the host of direct writes is the device's if and only if the environment names the configured one, or is clean where none is configured |
| `Devices.OnePort` | device/device.c:129-138 | likewise for the port: if and only if the environment gives the configured one, or does not exceed the range where that is unusable |
| `Devices.EndpointsAgree` | grpcserver/server.cc:256-262 | reconciliation and direct writes have one endpoint if and only if both agree |
| `Devices.UnconfiguredEndpoint` | device/device.c:738-758 | without a configuration the device writes to 127.0.0.1:1502 in every environment, and direct writes do exactly where the environment names nothing else |
| `Devices.SimulationMeans` | device/device.c:14-17 | the temperature is simulated for a text that begins with 1, and for true and on in letters of either case |
| `Devices.Device.constructor` | device/device.c:262-441 | a new device is valid, has copied twins or one for each property, and the namespace "test" |
| `Devices.NewTwinsAreCopies` | device/device.c:262-311 | copied twins keep their names and values, and a linked one gets a property of its own with the same name |
| `Devices.Device.Rebuild` | device/device.c:566-605 | the twin array is replaced exactly where a twin is unlinked or there is none for the properties |
| `Devices.RebuildNames` | device/device.c:566-605 | a rebuild takes place exactly where a twin is unlinked or there is none for the properties; then each twin has the name of its property, or unknown, is linked to it, and wants and reports nothing |
| `Devices.RebuildSettles` | device/device.c:566-605 | a rebuild leaves every twin linked, and after any later run there is nothing to rebuild |
| `Devices.DesiredNeedsModel` | grpcclient/register.cc:142 | from the request to the started device, the cloud's desired values, time stamps and types get through exactly where a model was given, to a twin linked to a copy of its property |
| `Devices.Device.SetStatus` | device/devicestatus.c:15-32 | the status becomes the new one, or unknown for an empty one |
| `Devices.Device.Start` | device/device.c:608-650 | running exactly where status is ok, whichever part fails, and all twins are linked |
| `Devices.Device.Stop` | device/device.c:656-672 | under the mutex, the device becomes offline and not running |
| `Devices.Device.DealTwin` | device/device.c:715-818 | the call is one reconciliation step on device and registers, attempts a write only where the twin is out of sync, and returns its success |
| `Devices.Device.DataPass` | device/device.c:158-218 | a pass is the run of one step for each twin in order; the simulation goes on by the number of simulated twins, and their steps carry the triangle wave |
| `Manager.DeviceManager.constructor` | device/device.c:821-840 | an empty array of capacity 10 |
| `Manager.DeviceManager.Add` | device/device.c:859-882 | the device is appended; capacity is 10 times a power of two, all copying together is capacity minus 10, and less than twice the peak |
| `Manager.DeviceManager.Grow` | device/device.c:864-873 | the capacity doubles and the contents stay |
| `Manager.DeviceManager.Remove` | device/device.c:885-911 | the first device of the name goes and the others keep their order |
| `Manager.DeviceManager.Get` | device/device.c:914-945 | the first device called by the whole id, else by its last part |
| `Manager.WholeIdWins` | device/device.c:914-945 | the first device that bears the whole id is found |
| `Manager.LastPartDecides` | device/device.c:914-945 | where none does, the first one called by what follows the last dot, or without a dot the last slash |
| `Manager.LookupUndoesResourceId` | util/parse/grpc.c:241-243 | an id that fits is looked up to the first device of the name, in every manager without a device of that whole id, if and only if the name is not empty and has no dot |
| `Manager.LookupUndoesSlashKey` | grpcserver/server.cc:113-117 | the same for namespace/name, if and only if also the namespace has no dot and the name no slash |
| `Server.LastPropertyWins` | grpcserver/server.cc:381-436 | the final desired value of a twin is that of the last property with a text that is not empty that names it, where no earlier twin has the name, or stands in its place, where no twin has the name; else the old one |
| `Server.WriteDirect` | grpcserver/server.cc:293-317 | one direct write: the register changes and no twin does |
| `Server.DirectWrites` | grpcserver/server.cc:147-158 | one direct write for each wanted property in order, and success exactly where one got through |
| `Server.DealWithTimeout` | grpcserver/server.cc:280-290 | the reconciliation takes place whether or not the deadline fires; 0 only where it did not |
| `Server.FindTarget` | grpcserver/server.cc:393-405 | in names: the first twin called so, else, where none is, the twin in the same place, if there is one |
| `Server.ApplyOne` | grpcserver/server.cc:381-434 | a new desired value and a reconciliation of the target, and a direct write exactly where there is no target or no success |
| `Server.ApplyAll` | grpcserver/server.cc:381-436 | the loop takes these steps for each wanted property in order, desired values end up as the fold says whatever the write outcomes, and the result is success exactly where a step succeeded |
| `Server.AcknowledgeTwin` | grpcserver/server.cc:118-134 | the first twin of the name takes the value as desired and as reported |
| `Server.ForceAll` | grpcserver/server.cc:97-139 | one forced write for each wanted property in order |
| `Server.ApplyDesired` | grpcserver/server.cc:320-437 | which path is taken without manager, without name, without device and with one |
| `Server.ApplyOrFallBack` | grpcserver/server.cc:141-162 | direct writes follow exactly where the normal path did not succeed in time |
| `Server.Update` | grpcserver/server.cc:96-162 | the steps of the whole call; at most four writes for each property; NOT_FOUND, unless the deadline fires, exactly where nothing succeeded |
| `Server.UpdateDevice` | grpcserver/server.cc:73-163 | a request without a device is refused and touches nothing, any other is answered that way |
| `Server.DeviceMeant` | grpcserver/server.cc:345-349 | for names without dots and slashes and namespaces without dots the request means the first device of that name, else the first one called namespace/name, else none |
| `Server.WritesAreWants` | grpcserver/server.cc:147-158 | the direct and the forced writes are those the properties ask for, and every property that asks gets one |
| `Server.QuietRequest` | grpcserver/server.cc:96-162 | a request in which every desired text is missing or empty takes no step on any path |
| `ConfigParse.Parse` | config/config.c:25-137 | the loop over tokens returns what the machine returns |
| `ConfigParse.SpinsWithoutEnd` | config/config.c:39-43 | the parser spins on exactly the streams whose end does not come where it looks for a token, whatever is open and was read; so on all without an end |
| `ConfigParse.Enter` | config/config.c:57-70 | opening a mapping keeps at most one section open, and mysql only inside database |
| `ConfigParse.Leave` | config/config.c:125-132 | so does the end of a block |
| `ConfigParse.MachineReadsWalk` | config/config.c:39-137 | on every document, whatever it nests or leaves out, the machine returns the configuration that holds what the walk over the tree finds |
| `ConfigParse.RightByScalars` | config/config.c:39-137 | in one document a field is right exactly when the scalar taken and the last one at its path leave the same content |
| `ConfigParse.RightIffLastIsTaken` | config/config.c:39-137 | whatever the scalars are, the field is right, if and only if the scalar taken is the last one at its path |
| `ConfigParse.MachineRefinesLookup` | config/config.c:39-137 | so on every document with flat known sections and inert others each field is the last value at its path, cut to the field |
| `ConfigParse.TextsOfGoodDocument` | config/config.c:72-124 | path by path and size by size: each text of the configuration is the last scalar at its path, cut to its field |
| `ConfigParse.NumbersOfGoodDocument` | config/config.c:104-122 | the database is enabled exactly where the last scalar at its path is 1 or true in letters of either case, and its port is the number printed there, or 0 |
| `ConfigParse.NestingEndsSection` | config/config.c:57-132 | a nested mapping or indented sequence ends its section, and the entries of the mapping count as the section's |
| `ConfigParse.NestingMisread` | config/config.c:57-132 | for whole documents: the section is read as what stands before the nested value and what stands in it |
| `ConfigParse.DashesAreHarmless` | config/config.c:57-132 | a sequence at the indentation of its key changes nothing |
| `ConfigParse.MissingValueHidesNext` | config/config.c:57-61 | a key without a value on the top level hides the key behind it, for all entries before and after |
| `ConfigParse.MissingValueKeepsSectionOpen` | config/config.c:57-61 | at the end of a section it keeps the section open for the next mapping |
| `Lifecycle.EveryRunIsSafe` | main.c:71-103 | in every interleaving with cancellation anywhere: one live data thread for each device at most, no use or second freeing of a freed device, and with a free mutex a device runs exactly where its status is ok; at the end every device is freed and no thread is left; a device is freed with its mutex locked exactly where a thread died holding it |
| `Lifecycle.EveryDeviceIsReached` | device/device.c:948-981 | in every interleaving the start of all devices leaves none behind that it did not start or mark as failed, and the stop of all devices none that is not stopped, joined and offline |
| `Lifecycle.EveryDeviceComesUp` | device/device.c:948-964 | in every interleaving in which no start fails and the main thread stays in its loop, every device runs with status ok and a live thread once the start thread is done |
| `Lifecycle.NoDeviceComesUp` | device/device.c:619-628 | where every start fails no device ever runs, no data thread is made, and every device behind the start thread is offline |
| `Lifecycle.DeviceComesUp` | device/device.c:608-650 | a state is reachable in which a device runs with status ok and its thread is alive |
| `Lifecycle.FreedWhileLocked` | device/device.c:562-563 | from there the end of cleanup is reachable with the device freed while a dead thread holds its mutex |
| `Lifecycle.StepKeeps` | device/device.c:948-981 | every step of every thread keeps the invariant |
| `Ownership.Heap.Free` | device/device.c:464-564 | only a live block or NULL may be freed |
| `Ownership.CopyTwins` | device/device.c:262-311 | every twin gets blocks of its own, a property record included where the source has one |
| `Ownership.CopiesStayApart` | device/device.c:505-518 | the embedded-pointer test takes no deep copy for an element of the array |
| `Ownership.AutoTwinOwnsItsName` | device/device.c:428-441 | it takes every link into the array for embedded, so such a twin owns its name only |
| `Ownership.Rebuild` | device/device.c:566-605 | twins with properties are kept; else there is one linked twin for each property, the old array is freed, and what the old twins owned is lost |
| `Ownership.Device.Free` | device/device.c:464-564 | every block the device owns is freed once, and no other block |
| `Ownership.Device.Start` | device/device.c:608-628 | a start rebuilds, replaces the status string, and loses no more than that rebuild does |
| `Ownership.ReplaceString` | device/device.c:794-799 | a writer's free and strdup of one string leave the device owning exactly its blocks |
| `Ownership.New` | device/device.c:221-461 | it fails exactly where the mutex or a client fails; then the leaked blocks are all that stay, and else the device owns the others, has the texts, properties, twins, methods and model of the caller field by field, and a client exactly for a protocol |
| `Ownership.TwinForEachProperty` | device/device.c:427-441 | a device made from n properties and no twins has n twins, each named and embedded at its own index |
| `Ownership.Lifetime` | device/device.c:221-605 | over construction, any starts and writes, and destruction, failures included, every free is of a live block and every block of the caller stays live; the number of leaked blocks is exact: one namespace, the ids that are set, and where a twin came without a property all that the twins own at the first start |

## Left out

- gRPC, HTTP, MQTT, OTel, Redis, InfluxDB, TDengine and MySQL clients: network and library plumbing; publishing and recording do not change twins or registers.
- The generated protobuf code: plain datatypes take its place.
- The text of the `mbpoll` command, its cut at 512 characters and the shell: a write is an endpoint, an offset and a number.
- Endpoints that differ as text and name one host (such as "localhost" and "127.0.0.1") are two endpoints here.
- FFmpeg streaming, the driver stubs and the `devicetwin_*` placeholders: they change neither twins nor registers.
- Liveness: a thread cancelled with a mutex can hang the process, so only safety is stated.
- Data races: the gRPC thread reads and writes twins without the device mutex; the model takes each call as one atomic step.
- gRPC access to devices during shutdown (main.c:97-115 stops the server after the devices are freed) is outside the lifetime claim.
- Allocation failure: `malloc`, `calloc`, `strdup` and `realloc` succeed.
- The libyaml scanner: the token stream of a document is a function of its tree; flow style, anchors, tags and aliases are not covered.
- The visitor configuration of a property: JSON text that nothing else in the model reads.
- The health check of the main loop, a second signal, and `device_restart`, which no part of the program calls.
- The default `SetProperty` method and the methods of a device appear in `Ownership` only.
- The rebuild is not a step of the runs in `Coherence`: it replaces the twins before the data thread of the device exists.
- `device_new` and the other entry points with NULL arguments: they return an error at once.
- `Devices.Device.constructor`: does not show methods, the copy of the model and the failure paths, which `Ownership.New` does.
- `Devices.Device.Stop`: does not show cancelling and joining the data thread, which `Lifecycle` does.
- `Manager.DeviceManager.Remove`: does not show that the removed device is freed; what freeing does is `Ownership.Device.Free`.
- `Wire.ConvGrpcToTwins`: does not show that the copied twins share strings with the source list, because twins are values here.
- `Ownership.CopyTwins`: the fields of a copied property record that still point into the caller's instance are not followed, and neither is anything freed through them.
- `Lifecycle.EveryRunIsSafe`: the work of a data thread inside its critical section is one step, and the rebuild inside a start is not shown.
