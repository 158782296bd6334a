# JSON-Patch object adapter and QUIC connection listener, in Dafny

This project models two small sequential cores of ASP.NET Core and proves
properties of the models.

**`PocoAdapter`** (`poco_adapter.dfy`) models the JSON Patch adapter for
plain objects. It holds the per-segment operations behind add, remove,
replace and test (section 4 of RFC 6902), plus get and traverse. Each
operation applies to one property of one object. It looks the property up
case-insensitively (the first match wins). Add, replace and remove then
check that the property is writable, and get and test check that it is
readable. Add, replace and test convert the offered value to the
property's type. Traverse checks neither. Only then does the operation read
or write.

- An object (`Poco`) is its resolved contract plus a map from property
  names to current values. The contract is either an object contract with
  an ordered list of property descriptors, or some other contract.
- Value conversion (`TryConvertValue`, which calls
  `ConversionResultProvider.ConvertTo`), the default instance of a value type
  (`Activator.CreateInstance`) and JSON serialisation are abstract. They are
  passed in as the `Services` record.
- Each resource-formatted error message becomes a `PatchError` constructor
  holding the message's arguments.
- Every operation returns its result instead of mutating the object. So
  "the target is unchanged" means the returned target equals the input.

**`QuicListener`** (`quic_listener.dfy`) models `MsQuicConnectionListener`
as a state machine. Its state is:

- the `_disposed` and `_stopped` flags;
- the accept channel, as a FIFO sequence plus a completed bit;
- whether the accept enumerator exists;
- the security config;
- the trace of the opaque native calls issued so far.

The model covers these operations:

- `StartAsync` issues eight setup calls in a fixed order. Any one of them may
  throw, which is chosen by an index parameter.
- `ListenerCallbackHandler` turns a native event into a status and perhaps an
  enqueue.
- `AcceptAsync` checks `_disposed` and then runs one step of the enumerator
  that `AcceptConnectionsAsync` builds.
- `DisposeAsync` and `UnbindAsync` are mutually recursive functions. Their
  termination measure is the number of flags still clear.
- `Execute` runs any sequence of outside calls. The FIFO and monotonicity
  lemmas are stated over it.

The model follows the code as written. Some consequences:

- The unidirectional stream limit is set from `MaxBidirectionalStreamCount`.
- `DisposeAsync` neither drains the queue nor releases any native handle
  (its body leaves the release as a to-do).
- Connections still buffered at disposal are never handed out, because every
  later `AcceptAsync` throws.
- The enumerator yields `null` once the channel is completed and empty. In
  every reachable state `_disposed`, `_stopped` and the channel's completion
  are equal, so an `AcceptAsync` call that starts in a reachable state never
  completes at once with that `null`. Only a call that was suspended when the
  listener was disposed receives it: that `null` is how a waiting consumer
  learns of shutdown.
- `MoveNextAsync` never returns `false`, so the `return null` after it in
  `AcceptAsync` is dead code.

## Model

| member | source | states |
|---|---|---|
| PocoAdapter.FirstMatch | src/Features/JsonPatch/src/Internal/PocoAdapter.cs:205-207 | the result is the first index whose property name equals the segment ignoring case; none when no name matches |
| PocoAdapter.TryGetJsonProperty | src/Features/JsonPatch/src/Internal/PocoAdapter.cs:197-218 | a property is found exactly when the contract is an object contract and some name matches; the one found is the first match and has a value slot |
| PocoAdapter.EqualsIgnoreCaseIsEquivalence | src/Features/JsonPatch/src/Internal/PocoAdapter.cs:207 | the ignore-case name comparison is reflexive, symmetric and transitive |
| PocoAdapter.LookupIgnoresCase | src/Features/JsonPatch/src/Internal/PocoAdapter.cs:203-207 | two segments that differ only in letter case find the same property |
| PocoAdapter.SetValue | src/Features/JsonPatch/src/Internal/PocoAdapter.cs:49 | a value-provider write keeps the contract, fills the property's slot with the value and leaves every other slot as it was |
| PocoAdapter.GetAfterSet | src/Features/JsonPatch/src/Internal/PocoAdapter.cs:74 | a value-provider read after a write of the same property sees the written value; reads of other properties are unaffected |
| PocoAdapter.TryAdd | src/Features/JsonPatch/src/Internal/PocoAdapter.cs:26-53 | guards in order: not found, then not writable, then not convertible, each with its own error; succeeds exactly when found, writable and convertible; failure returns the target unchanged; success has a null message and sets only the found property, to the converted value |
| PocoAdapter.TryGet | src/Features/JsonPatch/src/Internal/PocoAdapter.cs:55-77 | fails with a null value when the property is missing (not-found error) or unreadable (cannot-read error); otherwise yields the property's current value |
| PocoAdapter.TryRemove | src/Features/JsonPatch/src/Internal/PocoAdapter.cs:79-108 | needs only found and writable, with no conversion; success stores the type's default instance for a non-nullable value type and null otherwise, and no other property changes; failure returns the target unchanged |
| PocoAdapter.TryReplace | src/Features/JsonPatch/src/Internal/PocoAdapter.cs:110-137 | replace has the same outcome as add for every target, segment and value |
| PocoAdapter.TryTest | src/Features/JsonPatch/src/Internal/PocoAdapter.cs:139-171 | guards in order: not found, unreadable, not convertible; succeeds exactly when the serialized current value equals the serialized converted value; otherwise the not-equal error carries the current value, the original (unconverted) value and the segment |
| PocoAdapter.TryTraverse | src/Features/JsonPatch/src/Internal/PocoAdapter.cs:173-195 | a null target gives false with null value and null message; otherwise success exactly when the property is found, readable or not, yielding its value; otherwise the not-found error |
| PocoAdapter.AddThenGet | src/Features/JsonPatch/src/Internal/PocoAdapter.cs:43-74 | after a successful add of a readable property, get on the same segment yields the converted value |
| PocoAdapter.AddThenTest | src/Features/JsonPatch/src/Internal/PocoAdapter.cs:156-170 | after a successful add of a readable property, testing the same value succeeds |
| PocoAdapter.AddIdempotent | src/Features/JsonPatch/src/Internal/PocoAdapter.cs:26-53 | adding the same value a second time gives the same outcome and object as the first add |
| PocoAdapter.RemoveThenGet | src/Features/JsonPatch/src/Internal/PocoAdapter.cs:95-104 | after a successful remove of a readable property, get yields the default instance or null |
| PocoAdapter.TraverseExtendsGet | src/Features/JsonPatch/src/Internal/PocoAdapter.cs:173-195 | traverse agrees with get wherever get succeeds, and succeeds on found unreadable properties, where get fails |
| QuicListener.Created | src/Servers/Kestrel/Transport.MsQuic/Internal/MsQuicConnectionListener.cs:21-40 | a new listener has both flags clear and an open, empty channel, so its flags and completion agree; it has no enumerator, no security config and no setup call issued yet |
| QuicListener.TryWrite | src/Servers/Kestrel/Transport.MsQuic/Internal/MsQuicConnectionListener.cs:144 | the unbounded channel takes the connection at the tail exactly when it is not completed; a refused write changes nothing |
| QuicListener.TryComplete | src/Servers/Kestrel/Transport.MsQuic/Internal/MsQuicConnectionListener.cs:157 | completing the channel keeps every buffered item readable |
| QuicListener.MoveNext | src/Servers/Kestrel/Transport.MsQuic/Internal/MsQuicConnectionListener.cs:101-115 | never finishes; pops the head when an item is buffered; yields null exactly when completed and empty; suspends exactly when open and empty |
| QuicListener.DrainedYieldsNullForever | src/Servers/Kestrel/Transport.MsQuic/Internal/MsQuicConnectionListener.cs:103-114 | on a completed, empty channel every one of any number of further steps yields null |
| QuicListener.AwaitNext | src/Servers/Kestrel/Transport.MsQuic/Internal/MsQuicConnectionListener.cs:55-60 | never throws; returns a connection exactly when one is buffered, and then the head, removing it; returns null exactly when completed and empty, and otherwise suspends without change |
| QuicListener.AcceptAsync | src/Servers/Kestrel/Transport.MsQuic/Internal/MsQuicConnectionListener.cs:48-61 | throws ObjectDisposedException whenever disposed, without touching the queue; throws null-reference before binding; otherwise awaits the enumerator |
| QuicListener.AcceptNeverReturnsNull | src/Servers/Kestrel/Transport.MsQuic/Internal/MsQuicConnectionListener.cs:63-72 | an accept call that starts in a state where the flags and completion agree never completes at once with null; only a call suspended at disposal receives it |
| QuicListener.SuspendedAcceptGetsNullAfterDispose | src/Servers/Kestrel/Transport.MsQuic/Internal/MsQuicConnectionListener.cs:105-113 | an accept that was suspended resumes with null after disposal |
| QuicListener.DisposeAsync | src/Servers/Kestrel/Transport.MsQuic/Internal/MsQuicConnectionListener.cs:63-79 | terminates; the first call returns early exactly when already disposed, and otherwise recurses into unbind; the nested calls alternate, only the last returns early, and there are exactly one more than the flags still clear when not disposed; flags only get set; from not-disposed all three flags end set; already disposed changes nothing |
| QuicListener.UnbindAsync | src/Servers/Kestrel/Transport.MsQuic/Internal/MsQuicConnectionListener.cs:81-91 | the first call returns early exactly when already stopped, and otherwise recurses into dispose; the same call-chain bound, exact when not stopped; already stopped changes nothing; otherwise both flags end set, and completion too unless disposal had already happened |
| QuicListener.TeardownIdempotent | src/Servers/Kestrel/Transport.MsQuic/Internal/MsQuicConnectionListener.cs:63-91 | from a consistent state either teardown sets all three flags, and a second dispose or unbind returns at once with no change |
| QuicListener.StopAcceptingConnections | src/Servers/Kestrel/Transport.MsQuic/Internal/MsQuicConnectionListener.cs:155-158 | the channel is completed and keeps its items; nothing else changes |
| QuicListener.DisposedListenerStrandsQueue | src/Servers/Kestrel/Transport.MsQuic/Internal/MsQuicConnectionListener.cs:48-79 | from any state, after dispose accept throws and the buffered connections remain undelivered |
| QuicListener.DisposedListenerNeverDelivers | src/Servers/Kestrel/Transport.MsQuic/Internal/MsQuicConnectionListener.cs:48-56 | from a disposed listener, no run of any operations hands out a connection; the buffered connections and any the channel still takes stay buffered, in order |
| QuicListener.StartAsync | src/Servers/Kestrel/Transport.MsQuic/Internal/MsQuicConnectionListener.cs:117-131 | issues the setup calls in order up to and including the one that throws; the security config is set once its creation returned |
| QuicListener.BindAsync | src/Servers/Kestrel/Transport.MsQuic/Internal/MsQuicConnectionListener.cs:93-99 | the enumerator is set when start did not throw; otherwise the listener is what start left, enumerator unchanged |
| QuicListener.SetupOrder | src/Servers/Kestrel/Transport.MsQuic/Internal/MsQuicConnectionListener.cs:117-131 | whichever call throws, start issues a non-empty prefix of the fixed order registration, security config, session, listener open, idle timeout, bidirectional count, unidirectional count, listener start; all eight when nothing throws, and a throwing call is the last one issued |
| QuicListener.ListenerStartNeedsSecurityConfig | src/Servers/Kestrel/Transport.MsQuic/Internal/MsQuicConnectionListener.cs:121-130 | wherever the listener start is issued, a security-config creation from the configured certificate was issued at an earlier position, and the security config is set |
| QuicListener.StreamCountsFromBidirectional | src/Servers/Kestrel/Transport.MsQuic/Internal/MsQuicConnectionListener.cs:127-128 | the unidirectional limit is the bidirectional option, and changing the unidirectional option changes nothing |
| QuicListener.ListenerCallbackHandler | src/Servers/Kestrel/Transport.MsQuic/Internal/MsQuicConnectionListener.cs:133-153 | a new connection returns success and appends exactly that connection at the tail unless the channel is completed; any other event returns internal error and changes nothing |
| QuicListener.DroppedConnectionReportsSuccess | src/Servers/Kestrel/Transport.MsQuic/Internal/MsQuicConnectionListener.cs:144-158 | after completion a new connection still reports success while nothing is enqueued |
| QuicListener.ExecuteAccounts | src/Servers/Kestrel/Transport.MsQuic/Internal/MsQuicConnectionListener.cs:101-153 | over any run, the initial buffer followed by the written connections equals the delivered ones followed by the final buffer |
| QuicListener.ExecuteMonotone | src/Servers/Kestrel/Transport.MsQuic/Internal/MsQuicConnectionListener.cs:63-91 | over any run, the disposed, stopped and completed bits are never cleared, and agreement of the three is preserved |
| QuicListener.FreshListenerDeliversInOrder | src/Servers/Kestrel/Transport.MsQuic/Internal/MsQuicConnectionListener.cs:48-153 | from a new listener, accepts deliver a prefix of the written connections in write order, and an accept call that starts in the reached state never completes at once with null |

## Left out

- Null targets: add, get, remove, replace and test dereference the target (`target.GetType()`) and would throw a null-reference exception. Only traverse checks for null, so only `TryTraverse` takes an optional target.
- Contract resolution, reflection, `ConversionResultProvider.ConvertTo`, `Activator.CreateInstance`, `JsonConvert.SerializeObject` and `JToken.DeepEquals` are not modelled. They are the abstract `Services` functions, or the contract stored with the object. Comparing two serialised strings is modelled as string equality.
- Ordinal ignore-case comparison folds only ASCII letters.
- `ValueProvider.GetValue` and `SetValue` are modelled as total reads and writes of the property's slot that never throw. A real getter or setter may run code or throw; in particular, traverse reads through the getter even for a property the contract marks unreadable, and the model assumes that read succeeds.
- Error messages are `PatchError` values, not formatted resource strings.
- Threads, concurrent callbacks, `await` scheduling and the cancellation tokens, which the listener never reads, are not modelled. The channel is a sequential FIFO with a completed bit, and a call that would suspend reports `Pending` or `Suspended`.
- Native objects (`QuicRegistration`, `QuicSession`, `QuicListener`, `QuicConnection`) are not modelled. They appear only as entries of the native-call trace or as the connection handle. The handles stored in `_session` and `_listener` are not kept.
- `QuicListener.StartAsync`: a native failure is modelled only as which call throws, not as why it throws. `EndPoint as IPEndPoint` is assumed to be an IP endpoint.
- `QuicListener.ListenerCallbackHandler`: hands the stored security config (possibly none) back in the event. It does not model the null-reference exception a callback would raise before the config exists, which the native layer cannot trigger because the listener is opened after the config is created.
- `Execute` does not keep a suspended accept. When an `Accept` step reports `Pending`, the run drops that call, and a later `Accept` step stands in for its resumption. This differs from the code only at disposal: there the suspended call returns `null` (`SuspendedAcceptGetsNullAfterDispose`), while a later accept in the run throws `ObjectDisposedException`.
- `Console.WriteLine` in the callback, the `AppLifetime` and `Log` accessors, and the sample client program are not modelled.
