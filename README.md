# buongiorno core, modelled in Dafny

buongiorno is a desktop tool that watches mDNS traffic on the local network
and draws a graph of the hosts it sees, the DNS-SD services they advertise
and the service queries they send. This project models the parts of it
that decide what ends up in that graph:

- **Name matching** (`src/packet/packet.go`). `SplitHost` splits a DNS name
  into labels. `HostMatches` matches a name against a pattern. In a pattern,
  `*` stands for any one label. A pattern string that starts with `**` has
  its whole first label replaced by enough `*` labels to line the rest up
  with the end of the name; then one that ends with `**` has its last label
  replaced the same way. With `**` at both ends the trailing one therefore
  stands for exactly one label.
- **The reconciliation engine** (`src/ui.go`). This is the body of the
  capture goroutine. For each decoded mDNS packet it does three things:
  - records PTR questions for DNS-SD service names as service queries;
  - routes every Answer, Extra and Ns record. A PTR creates a service
    instance, A and AAAA records set host addresses, and SRV and TXT records
    wait in a queue;
  - drains the queue into the instances that now exist.

  `serviceQueriesForHost` lists the queries a host sent.
- **The avahi parsers** (`src/avahi.go`). One parses the lines of
  `avahi-browse -arpt`. The other pairs the raw and readable service-type
  lists.
- **The generic helpers** (`src/utils/slices.go`, `src/utils/utils.go`):
  - `GroupIntoMap` and `GroupIntoSlice`;
  - `OrDefault`, `Clamp` and `Must1`.
- **The lookup helpers the engine calls**, `utils.AppendToSliceIfAbsent` and
  `utils.FindInSlice` (called at `src/ui.go` lines 214, 225, 232, 237, 241
  and 251). Neither is defined in the two utils files above, so their
  meaning is taken from their names and their uses; "## Left out" says
  what is assumed.

## Files

Loops and state keep their imperative form; the rest are functions.

- `packet.dfy`: `HostMatches` is a method whose loops are proved to compute
  the function `Matches`.
- `discovery_spec.dfy`: the engine's behaviour as functions over a `State`
  value holding the four lists. `Reconcile` is one packet. `Tidy` and
  `Invariant` say what every reachable state satisfies.
- `discovery.dfy`: the engine as the class `DiscoveryState`. Its fields are
  the four package-level slices. Its methods are the loops of the goroutine,
  and each is proved to compute its specification function.
- `discovery_props.dfy`: what the engine does, proved about those
  functions.
- `avahi.dfy`: each parse loop is a method proved equal to a function.
- `slices.dfy`, `utils.dfy`: the helpers.
- `go_strings.dfy`: the few Go `strings` functions the core uses.
- `wrappers.dfy`: the `Result` type.

### How Go constructs are modelled

- **Panics.** A Go panic is an `Err` value:
  - an index out of range;
  - a slice `[1:0]`;
  - the avahi parser's panic on an unknown line type;
  - `Must1`'s panic.

  The engine's methods return `false` where the goroutine would panic.
- **Pointers.** Where the Go code keeps a pointer into a slice and then
  writes through it, the model uses the element's index.
- **The `seen` map** of `serviceQueriesForHost` is a `set<string>`.

### The queue is keyed by owner name only

`src/ui.go` lines 225 and 232 queue SRV and TXT records through
`AppendToSliceIfAbsent` with the owner name as the key, and nothing else.
With the keep-existing meaning assumed for that helper, a record is dropped
when any record of the same owner is already queued, whatever its type
(`DiscoveryProperties.NameOnlyKeying`). The queue is drained at the end of
every packet, so within one packet an SRV followed by the TXT of the same
instance keeps only the SRV; if the instance already exists both still go
to the queue rather than to the instance, so the TXT is still dropped. Such an
instance gets its host and port but never its TXT strings from that
packet. The model follows the code as written here.

## Model

| member | source | states |
|---|---|---|
| Packet.SplitHost | src/packet/packet.go:79-81 | Gives one label or more: split on dots after all trailing dots are dropped. |
| Packet.SplitHostRejoins | src/packet/packet.go:79-81 | Joining the labels with dots gives back the name without its trailing dots. |
| Packet.SplitHostTrailingDot | src/packet/packet.go:79-81 | A trailing dot does not change the labels. |
| Packet.SplitHostJoin | src/packet/packet.go:79-81 | Dot-free labels with a non-empty last one, joined with dots, split back into themselves. |
| Packet.SplitHostExample | src/packet/packet.go:79-81 | "a.b." and "a.b" both give ["a", "b"]. |
| Packet.AppendStars | src/packet/packet.go:96-98 | The loop appends exactly max(n, 0) `*` labels. |
| Packet.ExpandWildcards | src/packet/packet.go:92-107 | The rewritten pattern labels are `ExpandLabels` of the split pattern: a leading `**` turns the first label into enough `*` labels to reach aLen, and then a trailing `**` does the same to the last label. |
| Packet.HostMatches | src/packet/packet.go:83-118 | The result is `Matches(a, b)`: the name has at least as many labels as the pattern, and every label equals the expanded pattern's label or that label is `*`. |
| Packet.CompareLabels | src/packet/packet.go:112-117 | The label loop returns true exactly when every label equals the pattern label at its position or that label is `*`. |
| Packet.MatchesExpanded | src/packet/packet.go:109-117 | Once the pattern is expanded, matching is label-by-label matching of the name's labels against it. |
| Packet.ExpandLength | src/packet/packet.go:92-107 | With `**` at either end the expansion has exactly the name's label count. Without it, the expansion is the pattern's own labels. |
| Packet.MatchesReflexive | src/packet/packet.go:83-118 | Every name matches itself as a pattern. |
| Packet.FewerLabelsNeverMatch | src/packet/packet.go:87-90 | A name with fewer labels than the pattern never matches. |
| Packet.PlainPattern | src/packet/packet.go:109-117 | Without `**` at either end, matching is label-by-label matching of the two label lists. |
| Packet.StarLabels | src/packet/packet.go:113 | A `*` pattern label accepts any label. A name label `*` is accepted only by the pattern label `*`. |
| Packet.StarsThen | src/packet/packet.go:92-100 | Leading `*` labels accept any prefix, so the match is decided by the rest. |
| Packet.ThenStars | src/packet/packet.go:101-107 | Trailing `*` labels accept any suffix, so the match is decided by the rest. |
| Packet.StarsAround | src/packet/packet.go:92-107 | `*` labels at both ends leave the match to the inner labels. |
| Packet.LeadingWildcard | src/packet/packet.go:92-117 | `**.<tail>` matches exactly the names longer than the tail whose last labels match it. |
| Packet.LeadingMismatch | src/packet/packet.go:92-117 | Under `**.<tail>`, one mismatching label rules a name out. |
| Packet.TrailingWildcard | src/packet/packet.go:101-117 | `<head>.**` matches exactly the names longer than the head whose first labels match it. |
| Packet.BothEndsExpansion | src/packet/packet.go:92-107 | For a pattern of two labels or more, `**` at both ends expands to stars, the inner labels, and one star. |
| Packet.BothEndsWildcard | src/packet/packet.go:92-117 | `**` at both ends matches exactly the names long enough whose labels match the inner labels one label before the end. |
| Packet.BothEndsLong | src/packet/packet.go:92-117 | For a pattern of two labels or more with `**` at both ends, a long-enough name matches exactly when its labels one before the end match the inner labels. |
| Packet.BothEndsOneLabel | src/packet/packet.go:92-117 | A pattern that is only `**` matches every name. |
| Packet.LabelsMatchLiteral | src/packet/packet.go:112-117 | Pattern labels without `*` accept exactly themselves. |
| Packet.LeadingWildcardLiteralTail | src/packet/packet.go:92-117 | `**.<tail>` with no `*` in the tail matches exactly the names that end in the tail after one label or more. |
| Packet.TransportPattern | src/ui.go:127 | `**.<transport>.local` matches exactly the names of three labels or more ending in `<transport>.local`. |
| Packet.TcpPattern | src/ui.go:127 | `**._tcp.local` matches exactly the names of three labels or more ending in `_tcp.local`. |
| Packet.UdpPattern | src/ui.go:127 | The same for `**._udp.local`. |
| Packet.TcpPatternMatchesService | src/ui.go:127 | `a._airplay._tcp.local` matches `**._tcp.local`. |
| Packet.TcpPatternNeedsALabel | src/ui.go:127 | `_tcp.local` alone does not match `**._tcp.local`. |
| Packet.TcpPatternNeedsTransport | src/ui.go:127 | `a.b.c.local` does not match `**._tcp.local`. |
| Packet.PlainLiteralPattern | src/packet/packet.go:109-117 | A pattern without `*` labels and without `**` at either end matches exactly the names with its labels. |
| Packet.MetaPattern | src/ui.go:193 | `_services._dns-sd._udp.local` matches exactly the names with those four labels. |
| Packet.SplitHostFour | src/packet/packet.go:79-81 | Four dot-free labels joined with dots split back into themselves. |
| Discovery.ServicePattern | src/ui.go:127 | The two `HostMatches` calls against `**._tcp.local` and `**._udp.local` decide `IsServiceName`. |
| Discovery.MetaServicePattern | src/ui.go:193 | The meta-PTR test decides `IsMetaName`. |
| Discovery.DiscoveryState.constructor | src/ui.go:66-107 | The engine starts with no instances, no queries, an empty queue and the host "This PC", and satisfies the invariant. |
| Discovery.DiscoveryState.TrackQuestion | src/ui.go:125-139 | A PTR question for a service name appends one query; anything else changes nothing. |
| Discovery.DiscoveryState.TrackAll | src/ui.go:124-140 | The question loop takes the query list to `TrackQuestions` of its old value and leaves the rest of the state alone. |
| Discovery.DiscoveryState.RouteAnswer | src/ui.go:190-243 | One record changes the state as `RouteRecord` says. It returns false exactly when the goroutine would panic. |
| Discovery.DiscoveryState.RoutePtr | src/ui.go:191-216 | A PTR record changes the state as `RouteRecord` says, and returns false exactly when its owner is a service name other than the meta name and its target has one label. |
| Discovery.DiscoveryState.RouteDeferrable | src/ui.go:219-232 | An SRV or TXT record never panics and changes the state as `RouteRecord` says. |
| Discovery.DiscoveryState.RouteAddress | src/ui.go:235-242 | An A or AAAA record changes the host list to `SetAddress` and nothing else. |
| Discovery.DiscoveryState.RouteAnswers | src/ui.go:156-243 | The answer loop computes `RouteAll` over the records, and returns false exactly when it panics. |
| Discovery.ResolveDeferred | src/ui.go:249-260 | The first instance whose raw name is the record's owner gets the record applied; found tells whether that instance exists. |
| Discovery.DiscoveryState.DrainDeferred | src/ui.go:248-268 | The index loop that deletes in place leaves the instances and queue that `Drain` computes. |
| Discovery.DiscoveryState.ProcessPacket | src/ui.go:122-269 | A packet takes the state to `Reconcile`'s result, fails exactly when `Reconcile` panics, and keeps the invariant. |
| Discovery.DiscoveryState.ServiceQueriesForHost | src/ui.go:274-289 | The result is `QueriesForHost` of the query list. |
| DiscoverySpec.RouteErrorEnds | src/ui.go:160-244 | A panic ends the answer loop with that panic. |
| DiscoverySpec.DrainExtend | src/ui.go:249-269 | One more queued record either updates the first instance of its owner's raw name, or is kept. |
| DiscoverySpec.RawQueriesAppend | src/ui.go:285-286 | Adding a query adds its raw query to the seen set. |
| DiscoveryProperties.TrackQuestionsAppends | src/ui.go:124-140 | The question loop only appends, at most one query per question. Each new query's raw query is the name of a PTR question, it is a service name, and the query is from the packet's source. |
| DiscoveryProperties.QueryServiceType | src/ui.go:132-138 | A PTR question's service type splits into its name's labels without the domain, the last being `_tcp` or `_udp`. |
| DiscoveryProperties.MetaNameIsServiceName | src/ui.go:193-203 | The meta-query name also passes the service test, so it must be tested first. |
| DiscoveryProperties.PtrIgnored | src/ui.go:193-203 | A meta-PTR or a PTR outside `_tcp.local`/`_udp.local` changes nothing. |
| DiscoveryProperties.PtrInstance | src/ui.go:205-216 | A service PTR panics (`[1:0]`) exactly when its target has one label. If an instance with the target as raw name exists, it changes nothing. Otherwise it appends one instance with the first label as instance name, the labels between first and last joined with dots as service type (empty for two labels), the last label as domain, the raw name, and no host, port or extras. |
| DiscoveryProperties.InstanceNameParts | src/ui.go:205-213 | For a target of three labels or more, the instance name, the service type's labels and the domain give back the target's labels. |
| DiscoveryProperties.SetAddressEffect | src/ui.go:235-242 | An A/AAAA record sets the IPv4/IPv6 address of the host of that name, or appends a host with that address. Nothing else changes, names keep their places, and names stay unique. |
| DiscoveryProperties.QueueRecord | src/ui.go:219-232 | An SRV/TXT record outside the service patterns is dropped. A service SRV/TXT is appended to the queue unless a record of the same owner is queued. |
| DiscoveryProperties.NameOnlyKeying | src/ui.go:225 | A record whose owner already has a queued record is dropped, whatever the type of either. |
| DiscoveryProperties.RouteAllPanics | src/ui.go:160-244 | The answer loop can only panic with `[1:0]`, and only on a service PTR whose target has one label. |
| DiscoveryProperties.RouteAllAppend | src/ui.go:157-160 | Routing Answer + Extra + Ns in one loop is routing each list after the previous one. |
| DiscoveryProperties.RouteRecordTidy | src/ui.go:190-243 | Every record keeps the state tidy: unique raw names, hosts and owners, "This PC" first, instances as their PTR made them, ports in range, and only service SRV/TXT queued. |
| DiscoveryProperties.NewInstanceTidy | src/ui.go:205-216 | Adding a PTR's instance keeps the state tidy. |
| DiscoveryProperties.QueuedTidy | src/ui.go:219-232 | Queueing a service SRV/TXT keeps the state tidy. |
| DiscoveryProperties.AddressTidy | src/ui.go:235-242 | An address record keeps the state tidy. |
| DiscoveryProperties.RouteAllTidy | src/ui.go:160-244 | The whole answer loop keeps the state tidy. |
| DiscoveryProperties.UnmatchedFilters | src/ui.go:249-269 | The reference filter keeps a subsequence of the queue, with no record whose owner is an instance's raw name. |
| DiscoveryProperties.DrainShape | src/ui.go:249-269 | The drain keeps the number of instances, their names, types, domains and raw names, and in-range ports. What it keeps of the queue is exactly the unclaimed records, in order. |
| DiscoveryProperties.DrainSettles | src/ui.go:249-269 | After the drain no kept record has an instance of its owner's name. |
| DiscoveryProperties.DrainApplies | src/ui.go:251-261 | With unique raw names and owners, an instance with a queued record gets what that record carries: an SRV sets host and port, a TXT sets extras. An instance without one is untouched. |
| DiscoveryProperties.DrainedInstances | src/ui.go:249-269 | The drain keeps the instances tidy. |
| DiscoveryProperties.DrainedQueue | src/ui.go:263-265 | The records the drain keeps are as tidy as the queue. |
| DiscoveryProperties.DrainInvariant | src/ui.go:246-269 | A tidy state after the drain satisfies the invariant. |
| DiscoveryProperties.AdvertisementScenario | src/ui.go:157-268 | A PTR in Answer with the SRV and A records in Extra, reaching an engine with no instances, an empty queue and no host of that name, leaves one instance with the SRV's host and port, an empty queue, and the new host with its IPv4 address. |
| DiscoveryProperties.AdvertisementRoutes | src/ui.go:159-243 | For that advertisement the answer loop creates the instance, queues the SRV and appends the host with its address. |
| DiscoveryProperties.RouteThree | src/ui.go:159-244 | Three records routed one after the other are the answer loop over the three. |
| DiscoveryProperties.RouteOneMore | src/ui.go:159-244 | One more record continues the answer loop from where it stood. |
| DiscoveryProperties.DrainOne | src/ui.go:248-268 | A queued record owned by the raw name of the only instance is applied to it and leaves the queue. |
| DiscoveryProperties.InitialInvariant | src/ui.go:83-107 | The initial state satisfies the invariant. |
| DiscoveryProperties.ReconcileKeepsInvariant | src/ui.go:122-269 | A packet that does not panic takes a tidy state to one satisfying the invariant. |
| DiscoveryProperties.ReconcilePanics | src/ui.go:122-269 | A packet panics exactly when its answer loop does, and always with `[1:0]`. |
| DiscoveryProperties.QueriesForHostShape | src/ui.go:274-289 | The result is a subsequence of the queries, from the host's addresses only, with distinct raw queries. |
| DiscoveryProperties.QueriesForHostPrefix | src/ui.go:277-287 | The result for the first queries is a prefix of the result. |
| DiscoveryProperties.QueriesForHostFirst | src/ui.go:277-287 | Every raw query the host sent is in the result, and a query from the host whose raw query did not occur earlier is itself in the result. |
| Avahi.ParseAvahiServices | src/avahi.go:35-77 | The loop computes `ParseOutput`: the services after all lines, or the first panic. |
| Avahi.ParseLine | src/avahi.go:38-74 | One line changes the service list as `Step` says, or gives its panic. |
| Avahi.FindService | src/avahi.go:55-61 | The search computes `FindFrom`: the first matching index, -1, or the panic of a comparison. |
| Avahi.ErrorEndsParse | src/avahi.go:35-77 | A panic on a line is the outcome of the whole parse. |
| Avahi.KeyFieldsMatchComplete | src/avahi.go:58 | With all five fields present, the `&&` chain cannot panic and is equality of the key fields. |
| Avahi.FindFromComplete | src/avahi.go:55-62 | With all five fields present, the search finds the first service with that key, or none exists. |
| Avahi.EmptyLineSkipped | src/avahi.go:38-40 | Empty lines change nothing. |
| Avahi.AddLine | src/avahi.go:44-51 | A `+` line with five `;`-free fields appends one service with those fields and nothing resolved. |
| Avahi.LongAddLine | src/avahi.go:44-51 | Any `+` line with six fields or more appends one service whose key is fields 1 to 5, with nothing resolved; later fields are ignored. |
| Avahi.ShortAddLine | src/avahi.go:44-51 | A `+` line with too few fields panics at the first missing index. |
| Avahi.RemoveLineIgnored | src/avahi.go:52-53 | A `-` line changes nothing. |
| Avahi.ResolveLine | src/avahi.go:54-71 | A complete `=` line resolves the first matching service only. |
| Avahi.ResolvedKeepsKey | src/avahi.go:68-71 | Resolving sets hostname, address, port and a one-element TXT list, and keeps the five key fields. |
| Avahi.ResolveLineNoMatch | src/avahi.go:63-66 | A `=` line with all five key fields that matches nothing changes nothing. |
| Avahi.ShortResolveLine | src/avahi.go:54-66 | A `=` line with fewer than five fields panics at the first missing index, in a comparison or in the warning. |
| Avahi.KeyFieldsShort | src/avahi.go:58 | On a short line the comparison chain either stops at a mismatch or panics at the first missing index. |
| Avahi.FindFromShort | src/avahi.go:56-62 | On a short line the search finds nothing or panics at the first missing index. |
| Avahi.MidResolveLine | src/avahi.go:54-71 | A `=` line with five to eight fields panics exactly when some service matches, and otherwise changes nothing. |
| Avahi.UnknownLine | src/avahi.go:72-73 | Any other line type panics with that type. |
| Avahi.StepCount | src/avahi.go:42-74 | Only `+` lines change the number of services, by one. |
| Avahi.ServiceCount | src/avahi.go:35-77 | A successful parse has one service per `+` line. |
| Avahi.StepKeepsKeys | src/avahi.go:42-74 | No line changes a listed service's key fields. |
| Avahi.PairServiceTypes | src/avahi.go:107-121 | The loop computes `ServiceTypes`. |
| Avahi.PairErrorEnds | src/avahi.go:110-120 | A panic ends the pairing. |
| Avahi.NonEmptyIndices | src/avahi.go:110-115 | The indices of non-empty raw lines, in range, strictly increasing. |
| Avahi.NonEmptyIndicesComplete | src/avahi.go:110-115 | Every non-empty raw line's index is listed. |
| Avahi.PairFailsIff | src/avahi.go:110-112 | The pairing panics exactly when the readable output has fewer lines than the raw one. |
| Avahi.PairEntries | src/avahi.go:110-120 | Otherwise raw line i is paired with readable line i, once per non-empty raw line, in order. |
| Slices.GroupIntoMap | src/utils/slices.go:3-10 | The result has the items' keys, and under each key that key's items in order. |
| Slices.GroupIntoSlice | src/utils/slices.go:17-35 | The result is one group per key, in order of first occurrence, each with that key's items in order. |
| Slices.WithKeyHasKey | src/utils/slices.go:3-10 | Every item of a group has the group's key. |
| Slices.WithKeyAppend | src/utils/slices.go:3-10 | Grouping distributes over concatenation. |
| Slices.WithKeyAbsent | src/utils/slices.go:3-10 | A key's group is empty exactly when no item has that key. |
| Slices.FirstKeysDistinct | src/utils/slices.go:17-35 | The group keys are distinct. |
| Slices.FirstKeysAreKeys | src/utils/slices.go:17-35 | The group keys are exactly the items' keys. |
| Slices.FirstKeysPrefix | src/utils/slices.go:17-35 | The keys of a prefix of the items come first. |
| Slices.FirstOccurrenceOrder | src/utils/slices.go:17-35 | Every item of a later group is preceded by an item of each earlier group. |
| Slices.TotalStep | src/utils/slices.go:17-35 | An extra item adds one to the total size of a list of distinct groups exactly when its key is among them. |
| Slices.GroupSizesSum | src/utils/slices.go:17-35 | The group sizes add up to the number of items. |
| Slices.SliceAgreesWithMap | src/utils/slices.go:3-35 | For the same items both groupings have the same keys and the same item lists, and no group is empty. |
| Slices.FirstWhere | src/ui.go:251-253 | The first index whose element passes the test, or -1 when none does. |
| Slices.IndexOfKey | src/ui.go:214-216 | The first index whose element has the key, or -1 when none does. |
| Slices.FindInSlice | src/ui.go:251-253 | The search gives the first passing index, with ok exactly when there is one. |
| Slices.AppendedIfAbsent | src/ui.go:214-216 | The slice is unchanged or has one element added at the end. The key's first index is the old one, or the appended element. |
| Slices.AppendToSliceIfAbsent | src/ui.go:214-216 | The search appends only when no element has the key, and gives the index of the element now standing for the key. |
| Slices.FirstWhereIsIndexOfKey | src/ui.go:251-253 | A test that compares the key finds what the key lookup finds. |
| Slices.IndexOfKeySameKeys | src/ui.go:251-253 | The key lookup depends on the keys only. |
| Slices.AppendedIfAbsentUnique | src/ui.go:214-216 | Appending if absent keeps the keys unique. |
| Slices.IndexOfKeyUnique | src/ui.go:214-216 | With unique keys, looking up an element's key finds that element. |
| Slices.SubsequenceKeeps | src/ui.go:263-265 | A subsequence holds only elements of the whole, and keeps unique keys unique. |
| Utils.OrDefault | src/utils/utils.go:13-20 | The default exactly for the zero value, the value otherwise. The result is zero only when both are. |
| Utils.OrDefaultSettles | src/utils/utils.go:13-20 | With a non-zero default the result is never zero, and applying the default again changes nothing. |
| Utils.Clamp | src/utils/utils.go:51-59 | Below the range gives min and above it gives max, otherwise v. For min <= max the result lies in the range, and it is always one of the three inputs. |
| Utils.ClampIdempotent | src/utils/utils.go:51-59 | Clamping twice is clamping once. |
| Utils.ClampMonotone | src/utils/utils.go:51-59 | Clamping keeps the order of its inputs. |
| Utils.Must1 | src/utils/utils.go:33-39 | The value exactly when the error is the zero error; otherwise the panic with that error. |

## Left out

- **Packet capture.** No model of `CaptureMDNS`, `ParsePacket` or the pcap and DNS decoding. The engine takes an already decoded packet as input. Of a DNS record it keeps only what the engine reads: owner name, PTR target, SRV target and port, TXT strings and A/AAAA address text. Any other record type is `OtherRR`.
- **The program around the core.** No model of the UI, drawing and the graph layout (`updateGraph` and host positions and velocities), logging, the ticker, the textures, or `main.go` and `pcap/main.go`.
- **Concurrency.** Each goroutine is modelled as a single thread of steps. The lack of locking between the capture goroutine and the UI is not modelled.
- **The `en0` lookup in `init`** (src/ui.go:83-106). This is I/O and is left out; the model starts with the host "This PC" with no addresses. As written, the error tests at lines 84-85 are inverted, so no address is ever found on a machine where the lookup works.
- **The avahi command runs.** No model of the `exec.Command` calls. Their output is a parameter of the parse functions. No model of the refresh goroutine, or of the use of `GroupIntoMap` on the service types at src/ui.go:26.
- **A panic ends the goroutine.** A panicking step ends with `Err` or `false`, and the state after it is left unspecified. The program would crash.
- Discovery.DiscoveryState.RouteAnswer: the SRV port is a `uint16` and `Port` an `int`, as in Go. Text addresses are the record's address text; IP formatting is not modelled.
- Slices.AppendToSliceIfAbsent, Slices.FindInSlice: their Go definitions are not part of this model. The model assumes what the names and the calls in `src/ui.go` suggest. `AppendToSliceIfAbsent` appends the element only when no element has its key, keeps the existing element otherwise, and gives the element now standing for the key; the model uses its index where Go returns a pointer. `FindInSlice` gives the first element that passes the test, or nothing. `NameOnlyKeying` and everything about the queue depend on the first of these.
- **Other helpers.** No model of `Must`, `Must2`, `NewInstaTicker` or other helpers outside the named core. `Must1`'s panic is an `Err`.
- Utils.OrDefault: Go's zero value of a type parameter is an explicit `zero` argument.
- Utils.Must1: the zero error is an explicit `zero` argument.
- Utils.Clamp: modelled on `int` only; the Go version is generic over ordered types, floats and strings included.
- **Strings.** They are sequences of characters; there is no byte or UTF-8 encoding. Go's `strings.Split`, `Join` and `TrimRight` are modelled only for the one-character separators and cut sets the core uses.
- **Tests.** The tests in src/avahi_test.go are not part of this model.
