# Verified model of the cohesion IPC library

This project models the parts of cohesion IPC whose correctness is not visible from any single function: the event
loop of the socket server, the request/response sessions, the cancellable read with the stream endpoint built on it,
the framing of messages, the ownership of socket descriptors, and the text form of ids. Protocols are transition
systems; what is proved about them is proved of every run, whatever the interleaving. Code that works in place is a
class or a method, proved to do what the transition functions say.

`dafny verify dfyconfig.toml` checks everything.

## How the modules fit together

| module | models | main results |
|---|---|---|
| `Wrappers` | `Option` | |
| `Bytes` | `byte_representation<T>` and its in-place `reorder` | the wire form is big-endian on both kinds of host |
| `Framing` | the length-prefixed encoder and the looping decoder with its reused buffer | round trip; the exact output on a stream cut anywhere |
| `SocketServer` | the server as a transition system: handler list, ids, sockets, aux queue, one action per dispatch | the definitions |
| `SocketServerInvariants` | | the invariant of every reachable state |
| `SocketServerRuns` | | what sessions receive, what a pass visits, how handlers leave, when the loop ends |
| `SocketServerPasses` | | what one pass gives to each session |
| `SocketServerScenarios` | | two runs from the constructor's state: a stale id ends the loop, a cut length is delivered |
| `SocketServerShutdown` | | a bound on the passes after the owner's 0 |
| `SocketServerLoop` | `socket_handler::run` and the handlers of `server` as a class that mutates its list during the walk | the class plays runs of the transition system |
| `ClientSession`, `ClientOwnership`, `ClientSessionObject` | callbacks, tokens, and the handles that own them, chained ones included | the maps hold exactly what live handles own |
| `ClientDoubleErase` | | what a broken ownership comes to |
| `ServerSession` | handlers, responses, and chains of deferred continuations on a queue | breadth-first answers, termination |
| `Routing` | both sessions joined by ordered channels | a response reaches the callback of its own request |
| `RoutingOrder` | | a request's answers arrive in the order of its chain, none lost or repeated |
| `RoutingSubscriptions` | | whose callback a subscription invokes, and which requests meet a handler |
| `StreamEndpoint` | the worker of the stream endpoint, over reads that may throw | whole frames only, `disconnect` only at the end of the input |
| `CancelWin32`, `CancelUnix` | the two cancellable reads, any number of threads | what a `cancel` guarantees, and what it does not |
| `SocketHandles` | `socket_handle` | single ownership, each descriptor closed once |
| `TextIds` | `select`, `host_port`, GUIDs and endpoint ids | printing and reading undo each other |

## Where the code and what one might expect of it differ

Each has a lemma that gives an input or a run on which the expected property fails, and one that says exactly when it
holds; for the encoder the exact condition alone names the inputs.

- The socket server delivers a message for a frame its client never finished: `handle_session` accepts a partial length
  (`src/server_endpoint_sockets.cpp:206`). `CutLengthIsDelivered` is the input; `SessionSeesItsFrames` says that a
  session's messages are a prefix of its client's frames exactly when the server has not read into such a frame.
- The server's loop ends on any aux id that no longer names a handler, not only on the owner's 0
  (`src/server_endpoint_sockets.cpp:224-231`): a session that asks twice, or while its client closes, ends the loop for
  everybody. `StaleIdEndsTheLoop` is such a run; `LoopEndsExactly` says by which ids the loop ends, and that they do end it.
- `cancellable_read.h:20` promises that a read under way exits with the exception. On Unix a read past its `select`
  still returns its bytes (`LateReadReturns`); `CancelIsFinal` says that it does so exactly if it was past its `select`,
  which each thread can be once (`AtMostOneLateRead`). Inside `fread` it is not woken (`StarvedReadWaits`):
  `CancelWakesExactly` says when the destructor of the stream endpoint waits for the peer. On Windows it does not
  (`CancelWin32.ReaderConcludes`).
- On Windows a second reader overwrites the published handle of the first, and `cancel` returns past the first
  (`TwoReadersEscape`). `CancelEscapedExactly`: this can happen exactly when more than one thread may read; reads that do
  not overlap are safe in any number of threads (`CancelLeavesNobodyReading`).
- A second subscription on an id, and a request that names a response id twice, make one map element be erased twice once
  handles are let go (`SecondSubscriptionDooms`, `RepeatedIdDooms`, `ReleaseDoomed`); `DoubleEraseExactly` says that nothing
  else does. `TwoSubscriptionsEraseTwice` is the shortest case.
- A payload of 2^32 bytes or more does not survive the encoder (`PayloadSurvivesExactly`).
- A `socket_handle` takes descriptor 0 for none, and never closes it (`ZeroIsNeverClosed`); it closes any other it owns
  (`ClosedUnlessZero`).

## Assumptions

- Socket server. Fewer than 2^32 - 101 connections are accepted, so that ids do not wrap. Until the
  handshake only the aux connection starts with the magic; it stays open while the loop runs. `create_session` and the
  sessions' own code do not throw. A dispatch is one step: other threads only append to sockets, and a waiting read completes when its frame is there or
  its connection has closed. A client that stalls within a frame stalls the loop, so bounds count passes completed.
- Request/response. Channels are ordered and lose nothing. Tokens do not wrap: fewer than 2^64 requests. What a handler
  does is arbitrary, chosen per request: any sequence of answers and deferrals, the continuations being finite data of the
  same kind.
- Cancellable read. Each section under the mutex is one step. `CancelSynchronousIo` succeeds only on a thread that is inside
  the platform's read, and aborts that read. `fread` returns what it was asked for, or what is left when the input has
  ended, unless it is aborted.
- Bytes an uninitialised representation holds are a parameter (`junk`), so nothing proved depends on them.

## Model

| member | source | states |
|---|---|---|
| SocketServerRuns.SessionSeesItsFrames | src/server_endpoint_sockets.cpp:157-218 | In every reachable state, for every connection with a session: its messages are a prefix of the frames its client sent from its first byte, if and only if the server has not read into a frame the client left unfinished, which takes a closed client; after a `disconnect` they are a prefix exactly when the client closed between frames, and then they are all of them. Clients that sent before the handshake are included, since nothing but the aux magic is consumed there |
| SocketServerScenarios.CutLengthIsDelivered | src/server_endpoint_sockets.cpp:206-211 | From the state the constructor leaves there is a run in which a client closes after one byte of a length: it has sent no frame, and the log of its session is one message |
| SocketServerRuns.SessionSeesItsPayloads | src/client_endpoint_sockets.cpp:65-74 | Client encoder and server together: while a client sends the encodings of payloads and does not close before the last, its session has been given a prefix of those payloads; once told of the disconnect, all of them |
| SocketServerRuns.OneSessionPerConnection | src/server_endpoint_sockets.cpp:164-200 | Over every run `create_session` is called once for each accepted connection except the aux one, in the order of arrival: never before the handshake, and after it as often as there were accepts, less one |
| SocketServerRuns.PassVisitsTheReady | src/server_endpoint_sockets.cpp:90-106 | A pass that runs to the end of the list, whatever the others do meanwhile, dispatches each handler that was listed and readable when it began exactly once, in order of id, except at most one that the aux handler erased before its turn; it dispatches no other, none accepted meanwhile in particular |
| SocketServerPasses.PassServesEach | src/server_endpoint_sockets.cpp:202-218 | A whole pass, whatever happens around it, gives each session listed and readable when it began one event more, unless it was erased before its turn: a message if there were bytes to read, the disconnect if its client had closed with all of them read. No other session is given anything |
| SocketServerPasses.SelectReturnsExactly | src/server_endpoint_sockets.cpp:83-89 | `select` returns if and only if a connection waits to be accepted, or some listed handler has bytes or the end of its stream to read |
| SocketServerRuns.TurnDecreases | src/server_endpoint_sockets.cpp:90-106 | The walk ends although it appends to and erases from the list it walks: a measure of the elements ahead of the iterator falls with every turn |
| SocketServerRuns.SessionsLeaveOneWay | src/server_endpoint_sockets.cpp:98-100 | While the loop runs, a session whose handler has left the list was told of a disconnect exactly when its id was not taken off the aux connection: one of the two, never both |
| SocketServerRuns.SilentAfterLeaving | src/server_endpoint_sockets.cpp:202-232 | Once a session's handler has left the list, in either way, no run gives the session anything more, not even a disconnect, and the handler does not come back |
| SocketServerRuns.QueueIsWhatWasAsked | src/server_endpoint_sockets.cpp:118-119 | Over every run the aux queue holds, behind what it held, the id of each session that asked to be disconnected and 0 for each shutdown, in the order of the asking, and nothing else |
| SocketServerRuns.ErasedHadAsked | src/server_endpoint_sockets.cpp:118-119 | From the constructor's state on, a session whose handler was erased without its being told of a disconnect had asked for it itself |
| SocketServerRuns.StreamIsWhatWasSent | src/server_endpoint_sockets.cpp:206-210 | Over every run a client's stream is what its own steps sent, in order; the server neither writes to it nor closes it |
| SocketServerRuns.LoopEndsExactly | src/server_endpoint_sockets.cpp:88-104 | The loop is left by the aux handler if and only if an id was read that is 0, had been read before, or belongs to a session told of its disconnect; that id is then the last one read. It ends otherwise on a failed `select` only |
| SocketServerScenarios.StaleIdEndsTheLoop | src/server_endpoint_sockets.cpp:224-231 | From the state the constructor leaves there is a run without a shutdown and without a failing `select` in which a session asks twice to be disconnected and the loop ends on its id |
| SocketServerRuns.RunExits | src/server_endpoint_sockets.cpp:81-107 | Every run keeps, beside the invariant, the account of exits: while the loop was not left by the aux handler, the ids read are pairwise distinct and each that of a session erased without being told; every session that left was told or named |
| SocketServerShutdown.StopsWithinBound | src/server_endpoint_sockets.cpp:77-107 | From any reachable state with a 0 unread in the aux queue, no run completes `Bound` more passes |
| SocketServerShutdown.DestructorStopsTheLoop | src/server_endpoint_sockets.cpp:151-155 | After the destructor has sent 0 no run completes more passes than: connections in the backlog up to the aux one, the handshake, the ids queued ahead of the 0, the 0 itself and the pass under way |
| SocketServerShutdown.ThreadMovesExactly | src/server_endpoint_sockets.cpp:81-107 | With a 0 unread and the loop running, in every reachable state, while ids and descriptors last: the thread can take a step if and only if it does not wait for the rest of a frame of one client; nothing else can keep the bound from being reached |
| SocketServerInvariants.InitialInv | src/server_endpoint_sockets.cpp:130-149 | The invariant holds when the constructor starts the thread, with any clients already in the backlog and any bytes already sent |
| SocketServerInvariants.StepInv | src/server_endpoint_sockets.cpp:77-247 | Each of the nine actions keeps the invariant: acceptor first; ids distinct, ascending, below `_next_id`; open descriptors exactly the aux client's and the listed handlers'; no sessions before the handshake, one aux handler and no preinit handler after it; the aux queue is the magic, then zeros and ids once given to sessions; each log is messages, then at most one disconnect, after which the handler is not listed |
| SocketServerInvariants.RunInv | src/server_endpoint_sockets.cpp:77-247 | So does every run, however long |
| SocketServerInvariants.MagicIsAux | src/server_endpoint_sockets.cpp:157-163 | A preinit handler exists only before the handshake, and the one that sees the magic is that of the aux connection |
| SocketServerInvariants.AcceptTurn | src/server_endpoint_sockets.cpp:179-200 | An accept leaves everything as it was but a new handler at the end, with the next id and a descriptor that is not in the snapshot of this pass; after the handshake also an empty log for its session |
| SocketServerInvariants.HandshakeTurn | src/server_endpoint_sockets.cpp:161-176 | The handshake consumes four bytes of the aux connection and nothing else; it changes no id and no descriptor, makes the first handler the regular acceptor, its own the aux handler, and creates sessions for all others, in order, with empty logs |
| SocketServerInvariants.InstallSpec | src/server_endpoint_sockets.cpp:164-174 | The handshake's loop, after any number of handlers, has replaced exactly those and created a session for each but the acceptor and the aux one |
| SocketServerInvariants.TakeFrameOk | src/server_endpoint_sockets.cpp:206-210 | The two reads of a frame extend the delivered whole frames by the next one if it is there; otherwise the connection is closed and one message more than the client's frames results, at the end of the stream |
| SocketServerInvariants.TakenBytes | src/server_endpoint_sockets.cpp:206-210 | The message of any frame, whole or cut, byte by byte: as long as the four header bytes say, the most significant first; what was received, then what the shared buffer held there, then zeros. No more is consumed than header and message |
| SocketServer.MagicBytes | src/server_endpoint_sockets.h:51-54 | A stream starts with the magic exactly if its first four bytes are FF FF FF FE, which is also what the aux client sends |
| SocketServerInvariants.AuxReads | src/server_endpoint_sockets.cpp:220-226 | The aux handler reads the ids in the order in which they were queued, the magic aside, whatever an uninitialised representation holds |
| SocketServerInvariants.AuxTurn | src/server_endpoint_sockets.cpp:220-232 | An id read from the aux connection ends the loop if and only if no listed handler has it; otherwise that handler goes with its descriptor, is neither the acceptor nor the aux handler itself, is told nothing, and the iterator stays on its element, which then is passed |
| SocketServerInvariants.AheadAccept | src/server_endpoint_sockets.cpp:179-200 | A handler appended during a pass does not become due in it |
| SocketServerInvariants.AheadSkip | src/server_endpoint_sockets.cpp:225-230 | Erasing a handler ahead of the iterator takes it, and only it, from those the pass will visit |
| SocketServer.IndexOf | src/server_endpoint_sockets.cpp:225-226 | The search of the aux handler finds the first handler with the id, and reaches the end only if there is none |
| SocketServerLoop.PlayIsARun | src/server_endpoint_sockets.cpp:77-107 | What the loop does under any script of outside events is a run of the transition system, so whatever holds of all runs holds of the loop |
| SocketServerLoop.Server.Run | src/server_endpoint_sockets.cpp:77-107 | The nested loops over `select` and the mutated list, under any script of outside events, end in the state that playing the script gives, and keep the invariant and the account of exits |
| SocketServerLoop.PlayKeeps | src/server_endpoint_sockets.cpp:77-107 | Playing any script keeps the invariant and the account of exits |
| SocketServerLoop.Server.constructor | src/server_endpoint_sockets.cpp:130-149 | The constructor establishes the initial state, the invariant and the account of exits, for any clients ahead of the aux one in the backlog |
| SocketServerLoop.Server.TakeTurn | src/server_endpoint_sockets.cpp:92-105 | A dispatch through the handler's current state, with the erase or advance that follows it, is one turn of the transition system |
| SocketServerLoop.Server.Walk | src/server_endpoint_sockets.cpp:90-106 | The inner loop refines a sequence of turns, and is left at the end of the list, when the loop ends, or to wait |
| SocketServerLoop.Server.HandlePreinit | src/server_endpoint_sockets.cpp:157-177 | Peeking, comparing and the loop over the list that rebinds handlers in place have the effect of the handshake if the whole magic is there, and none at all otherwise |
| SocketServerLoop.Server.HandleSession | src/server_endpoint_sockets.cpp:202-218 | Two reads, the second into the reused buffer, take one frame, deliver it and go on; with nothing to read the session hears of a disconnect and the handler asks to be removed |
| SocketServerLoop.Server.HandleAux | src/server_endpoint_sockets.cpp:220-232 | Erases the handler named, or asks to exit |
| SocketServerLoop.Server.EraseAt | src/server_endpoint_sockets.cpp:98-100 | After an `erase` elsewhere the iterator stands on the element it stood on, after one under it on the next; the erased handler's descriptor is closed |
| SocketServerLoop.Server.ReceiveScalar | src/server_endpoint_sockets.cpp:50-59 | Receiving over the bytes of a representation and reordering it in place reads the same value on either host: four received bytes are the big-endian form of the value; peeking consumes nothing |
| Framing.DecodeOfEncoded | src/helpers.h:64-77 | Decoding the concatenated encodings of any payloads, each shorter than 2^32, gives those payloads in order |
| Framing.DeliveredExactly | src/helpers.h:69-76 | On any bytes the decoder gives every whole frame, then, if a header was complete, one message of the declared length: the bytes received, followed by what the resized previous buffer held there (old bytes, then zeros) |
| Framing.CutStream | src/helpers.h:69-76 | A stream of encoded payloads cut at any byte: the leading payloads come out unchanged, and one message more exactly when a whole header of the next came through, as long as that payload: what arrived of it, then the bytes of the previous payload at the same places, then zeros |
| Framing.TruncatedBytes | src/helpers.h:73-75 | The message of a cut frame, byte by byte: what arrived, then what the reused buffer held there, then zeros |
| Framing.PayloadSurvivesExactly | src/client_endpoint_sockets.cpp:65-74 | A payload survives encoding and decoding if and only if its length is below 2^32 |
| Framing.ParseOfEncoded | src/client_endpoint_sockets.cpp:65-74 | Encodings followed by an incomplete rest have the payloads as their frames and that rest |
| Framing.EncodedOfParsed | src/helpers.h:64-77 | Parsing loses nothing: any bytes are the encodings of their frames followed by the rest, which holds no whole frame |
| Framing.ParseGrows | src/helpers.h:64-77 | Bytes that arrive later add frames and change none: parsing in pieces equals parsing at once |
| Framing.FramesOfPrefix | src/helpers.h:64-77 | What follows encoded payloads does not disturb them |
| Framing.ReadMessages | src/helpers.h:64-77 | The loop with its reused buffer and optional `reorder` empties the socket and delivers exactly the messages of the specification, on either host |
| Framing.SendMessage | src/client_endpoint_sockets.cpp:65-74 | The client puts on the socket the length of the payload, cut to 32 bits, in four bytes with the most significant first, and that many bytes of the payload, on either host |
| Framing.DeclaredValue | src/helpers.h:71-73 | A header counts its bytes by powers of 256, the most significant first or last by the order of the wire |
| Framing.SendAndDeliver | src/client_endpoint_sockets.cpp:65-74 | Client encoder and decoder agree across hosts: payloads sent from either kind of host arrive at either kind, in order |
| Bytes.ByteRepresentation.Reorder | src/helpers.h:50-61 | On a little-endian host each byte of a value of any size, odd or even, changes places with its mirror image; on a big-endian one each stays |
| Bytes.ReorderedIsBigEndian | src/helpers.h:50-61 | After `reorder` the bytes are the big-endian ones on both hosts, and a second `reorder` undoes the first |
| Bytes.HostByteAt | src/helpers.h:20-26 | Each byte of a number on a host of either kind, by division: the big-endian form starts with the most significant, the little-endian with the least |
| Bytes.CrossHostScalar | src/server_endpoint_sockets.cpp:40-59 | A scalar sent by `send_scalar` on one kind of host is the one `recv_scalar` reads on any other, for any width |
| Bytes.HostRoundTrip | src/helpers.h:20-26 | A host reads back the value whose bytes it wrote, if the width holds it |
| Bytes.HostBytesOfValue | src/helpers.h:20-26 | Writing back the value read from any bytes gives those bytes |
| ClientOwnership.ReleaseKeeps | coipc/strmd/client_session.h:79-112 | Letting a handle go, link by link, erases only elements that are still there and none that another handle leads to; what is left is exactly owned again |
| ClientOwnership.ReleaseFrame | coipc/strmd/client_session.h:79-112 | A release adds and changes no callback |
| ClientOwnership.ReleaseHandleKeeps | coipc/strmd/client_session.h:79-112 | After a release the maps hold exactly the elements that the other handles own |
| ClientOwnership.SubscribeKeepsExactly | coipc/strmd/client_session.h:72-80 | Subscribing keeps the maps equal to what live handles own if and only if the id has no subscription yet |
| ClientOwnership.SubscribeInstalls | coipc/strmd/client_session.h:72-80 | A subscription on a new id holds the callback it was given, owned by its handle; every other subscription and callback left is as it was |
| ClientDoubleErase.SecondSubscriptionDooms | coipc/strmd/client_session.h:72-80 | From a state that keeps the ownership, a second subscription on an id, through whatever handle, leaves one element owned twice, or gone under a live handle, or already erased twice |
| ClientDoubleErase.RepeatedIdDooms | coipc/strmd/client_session.h:94-115 | A request that names a response id twice does the same |
| ClientDoubleErase.ReleaseDoomed | coipc/strmd/client_session.h:79-112 | No release of a handle cures that: an element is erased twice at once, or stays to be |
| ClientOwnership.RequestOneKeeps | coipc/strmd/client_session.h:82-92 | A request with one response always keeps the ownership, and its handle then leads to its own element alone |
| ClientOwnership.RegisterChains | coipc/strmd/client_session.h:101-113 | The loop over several responses leaves a chain with the request's links, newest first, in front of what the handle led to before, and touches no other handle |
| ClientOwnership.RequestManyKeepsExactly | coipc/strmd/client_session.h:94-115 | A request with several responses keeps the ownership if and only if its response ids differ |
| ClientOwnership.CopyKeeps | coipc/strmd/client_session.h:105-110 | Copying a handle, dropping what the target held, keeps the ownership, and the copies share one chain |
| ClientOwnership.NoHandlesNoCallbacks | coipc/strmd/client_session.h:79-112 | When no handle leads anywhere, both maps are empty |
| ClientOwnership.InvokedExactlyWhileOwned | src/strmd/client_session.cpp:27-53 | A message invokes somebody if and only if a live handle owns the subscription on its id or the element of its id and token |
| ClientSessionObject.Session.Subscribe | coipc/strmd/client_session.h:72-80 | Inserts, then resets the handle, whose old element is released last; on a new id the callback given is then the one the subscription holds |
| ClientSessionObject.Session.RequestOne | coipc/strmd/client_session.h:82-92 | One request takes one token, registers its callback under it with the handle as its owner, and sends one message that carries it |
| ClientSessionObject.Session.RequestMany | coipc/strmd/client_session.h:94-131 | The loop that rebuilds the handle registers every response under the one token the message carries |
| ClientSessionObject.Session.ReleaseHandle | coipc/strmd/client_session.h:79-112 | The cascade of deleters stops at the first link another handle holds |
| ClientSessionObject.Session.Receive | src/strmd/client_session.cpp:27-53 | A message invokes somebody exactly when its id is subscribed to or its id and token are registered; the subscription wins; the test whether the id is awaited at all hides no registered callback |
| ServerSession.RunAllIsBreadthFirst | src/strmd/server_session.cpp:44-54 | Running the queue to its end sends, after what was sent before: the first answers of all chains in order of arrival, then the second ones, to the depth of the longest chain, each under the token of its own request; nothing else, and the queue is empty |
| ServerSession.RunFirstDecreases | src/strmd/server_session.cpp:44-54 | Each task run leaves less work, however it defers again: the run terminates |
| ServerSession.DeadQueueIsSilent | src/strmd/server_session.cpp:44-54 | Once the session has gone its queue drains without a message |
| ServerSession.Session.Call | src/strmd/server_session.cpp:61-66 | Each answer of a body goes out with its own id and payload under the token, in the body's order, and nothing else does; what is left is its last deferral; without a queue the first deferral throws and the answers behind it are not sent |
| ServerSession.AnswersGiven | coipc/strmd/server_session.h:129-143 | The packets of a body are as many as the answers it gets to, the k-th answer being the k-th packet with its id, payload and token |
| ServerSession.DeferredIsLast | src/strmd/server_session.cpp:61-66 | A body leaves a continuation if and only if it defers, and it is that of its last deferral |
| ServerSession.Session.Receive | src/strmd/server_session.cpp:22-42 | A request whose id has a handler is answered under its own token and its continuation queued behind all others; any other request does nothing |
| ServerSession.Session.RunTillEnd | src/strmd/server_session.cpp:44-54 | The loop over the queue ends, having sent the rounds of the chains breadth first |
| Routing.ResponsesReachTheirRequest | coipc/strmd/server_session.h:136-143 | After every interleaving the response next delivered was given by the handler, or a continuation of it, of the request with its token; it invokes the subscription on its id, or else the callback which that very request registered under that id, or nobody: never another request's |
| RoutingSubscriptions.SubscribersHearTheirs | src/strmd/client_session.cpp:35-40 | From the initial state, over every run: a message on a subscribed id invokes a callback that a subscription of the run gave for this id, in a careful run the one given last |
| RoutingSubscriptions.RequestMeetsHandler | src/strmd/server_session.cpp:32-41 | A request is answered, under its own token, by what its handler does exactly if the run or its start had a handler for its id; any other changes nothing at the server |
| RoutingOrder.AnswersComeInOrder | src/strmd/server_session.cpp:22-54 | Under every interleaving, the answers sent under the token of a handled request are the beginning of all answers of its chain, in order, none lost or repeated; while the session lives the rest is owed by its one queued task, and with no task queued nothing is missing |
| RoutingOrder.EachDeliveredOnce | src/strmd/client_session.cpp:27-53 | Over every run the client is given each packet once, in the order in which the server sent them |
| Routing.ResponsesInvokeWhileHeld | src/strmd/client_session.cpp:35-52 | After every careful run a response that no subscription shadows invokes a callback if and only if a handle of its request lives; the maps equal what live handles own, and nothing was erased twice |
| Routing.CarefulKeepsOwnership | coipc/strmd/client_session.h:72-115 | Of all steps only a second subscription on a live id and a request naming a response id twice break the ownership, and they always do |
| Routing.RunKeepsOwnership | coipc/strmd/client_session.h:72-115 | Every run without such steps keeps the ownership |
| Routing.DoubleEraseExactly | coipc/strmd/client_session.h:72-115 | After a step, letting handles go can erase an element twice if and only if the step was a second subscription on a live id or a request naming a response id twice |
| Routing.StepInv | coipc/strmd/client_session.h:117-131 | Each action keeps: tokens count the requests; what is on the channel are the requests issued; each key in the map holds the callback its request registered; each queued continuation and each response sent belongs to the request with its token |
| Routing.RunInv | coipc/strmd/client_session.h:117-131 | So does every run |
| Routing.RegisterAdds | coipc/strmd/client_session.h:101-113 | Registering a request's responses adds exactly its keys, the first callback counting for a repeated id, and disturbs no other key |
| Routing.AnswersCarryToken | coipc/strmd/server_session.h:136-143 | Every answer a body gives carries the token it was run with |
| CancelWin32.CancelIsFinal | src/cancellable_read.win32.cpp:37-68 | Any number of readers and cancellers: once a `cancel` has held the lock no read ever returns bytes again, and a reader not past its first check by then never enters the platform's read |
| CancelWin32.CancelledBySomebody | src/cancellable_read.win32.cpp:44-66 | Over every run the flag is set if and only if some `cancel` has held the lock |
| CancelWin32.CancelLeavesNobodyReading | src/cancellable_read.win32.cpp:37-68 | Reads that do not overlap, by any number of threads: when a `cancel` has returned, no reader is inside a platform read that was not aborted, nor on its way into one |
| CancelWin32.InitialAlone | src/cancellable_read.win32.cpp:33-35 | Every initial state, with any number of threads, satisfies the invariant this rests on |
| CancelWin32.TwoReadersEscape | src/cancellable_read.win32.cpp:46-65 | From every initial state with two readers and a canceller there is a run in which a `cancel` returns while the first reader is inside a read nobody aborts |
| CancelWin32.CancelEscapedExactly | src/cancellable_read.win32.cpp:37-68 | Some run has a `cancel` return past a reader that is inside an un-aborted read, or about to enter one, if and only if more than one thread may read |
| CancelWin32.RetryEnds | src/cancellable_read.win32.cpp:58-68 | Once cancelled, the reader with the published handle has at most three steps left; each round of the retry loop waits for those, and the round after them leaves it |
| CancelWin32.ReaderConcludes | src/cancellable_read.win32.cpp:37-68 | Once a `cancel` has returned, a read under way always has a step of its own to take, takes at most two whatever the others do, and ends with a throw, so that a join of its thread returns |
| CancelWin32.HandleStep | src/cancellable_read.win32.cpp:41-53 | One reader at a time: the published handle is, in every state, that of the reader between its two checks |
| CancelWin32.ReadsAreHonest | src/cancellable_read.win32.cpp:37-56 | A reader's reads return the input in order without loss, short only at its end, and after the first throw all throw |
| CancelWin32.StreamSessionOnWindows | src/server_endpoint_stream.cpp:18-38 | For every interleaving of the worker with cancels the session gets whole frames from the first byte, one cut by the end of the input at most; a disconnect exactly when a header came short before any throw, and then the input has ended and all of it was delivered |
| CancelWin32.Impl.Read | src/cancellable_read.win32.cpp:37-56 | A read calls the platform exactly if not cancelled before, returns what the platform gave exactly if no cancel held the lock up to its second check, and leaves no handle published; a read that throws at once changes nothing |
| CancelWin32.Impl.Cancel | src/cancellable_read.win32.cpp:58-68 | The loop is left at the first round that finds no handle or whose `cancel_io` succeeds, never before; `cancel_io` is called once in each round that finds a handle; the flag is set at the first round |
| CancelUnix.CancelIsFinal | src/cancellable_read.unix.cpp:44-69 | Any number of readers, from the first signal on: the signal byte is never consumed, and a read that ends returns bytes if and only if it is the one that was past its `select`; each other throws |
| CancelUnix.SignalsCounted | src/cancellable_read.unix.cpp:68-69 | Over every run the pipe holds one byte for each `cancel`: none is ever read, and nobody else writes |
| CancelUnix.AtMostOneLateRead | src/cancellable_read.unix.cpp:44-69 | Each thread completes at most one read that returns bytes after the first cancel |
| CancelUnix.LateReadReturns | coipc/cancellable_read.h:19-21 | From an initial state there is a run in which a read under way at the `cancel` returns its bytes, against the promise that it exits with the exception |
| CancelUnix.CancelWakesExactly | src/cancellable_read.unix.cpp:62-69 | A read past its `select` can end while the peer neither sends nor closes, whatever cancels come, if and only if the bytes it asked for are there or the input has ended; otherwise the destructor's join waits for the peer |
| CancelUnix.StarvedReadWaits | src/cancellable_read.unix.cpp:62-69 | From an initial state there is a run to a read that no cancel can wake: as long as the peer neither sends nor closes it stays inside `fread` |
| CancelUnix.ReadsAreHonest | src/cancellable_read.unix.cpp:44-66 | A reader's reads return the input in order without loss, short only at its end, and after the first throw all throw |
| CancelUnix.StreamSessionOnUnix | src/server_endpoint_stream.cpp:18-38 | As on Windows: whole frames from the first byte, and a disconnect exactly at a header that came short, which is at the end of the input |
| CancelUnix.Impl.Read | src/cancellable_read.unix.cpp:44-66 | The first `select` that is not interrupted and reports anything decides; the signal comes before the data, so with a byte in the pipe the platform's read is never entered |
| StreamEndpoint.SessionIsServed | src/server_endpoint_stream.cpp:18-30 | However the reads end, the session is given a prefix of the input's frames, or, the input having ended, all the decoder makes of it; told of a disconnect only in the latter case; told nothing after a read that threw |
| StreamEndpoint.ServedTracks | src/server_endpoint_stream.cpp:18-30 | Between any two reads the worker stands at a byte of the input, its log the frames in front of it: no message is partly filled because of a cancel |
| StreamEndpoint.Work | src/server_endpoint_stream.cpp:18-30 | The worker's loop tells the session of a disconnect if and only if a header came short with whole headers and no throw in front of it, as the last thing and once; before that, one message for each payload read |
| StreamEndpoint.ServedPhase | src/server_endpoint_stream.cpp:18-30 | From the outcomes alone: where the worker stands, and that it closes exactly at a short header |
| SocketHandles.OwnershipExactly | src/socket_helpers.h:61-89 | A step keeps each descriptor with at most one handle, open, and closed at most once, if and only if what it hands to a handle is none, -1, or an open descriptor no handle has |
| SocketHandles.EachClosedOnce | src/socket_helpers.h:61-89 | Over any run that hands out such descriptors, a reset or destruction closes exactly what the handle owned, which was open; transfers and failed resets close nothing |
| SocketHandles.NoneLost | src/socket_helpers.h:61-89 | A descriptor that a handle held is, after any step, held by some handle if and only if it is still open |
| SocketHandles.TransferMoves | src/socket_helpers.h:66-68 | A transfer gives the new handle what the old one held and leaves it none, and changes nothing else |
| SocketHandles.ClosedUnlessZero | src/socket_helpers.h:61-78 | An open descriptor handed to a handle is closed with it if and only if it is not 0 |
| SocketHandles.SocketHandle.Take | src/socket_helpers.h:66-68 | The copy takes the descriptor away from the original |
| SocketHandles.ResetOnce | src/socket_helpers.h:70-78 | A handle that was reset may be reset again or destroyed, and neither closes anything more |
| SocketHandles.SocketHandle.Assign | src/socket_helpers.h:80-86 | -1 throws and changes nothing; otherwise the old descriptor is closed before the new one is owned |
| TextIds.Select | src/helpers.h:30-47 | The text in front of the first bar selects the first constructor with that protocol; the id is the text behind the bar, set also when the protocol is unknown and the call throws; no bar and an unknown protocol are told apart |
| TextIds.SocketsIdRoundTrip | src/misc.cpp:9-16 | For every IPv4 host and port: the printed id fits its 32 bytes, splits at its first bar into `sockets` and an address, and reading that address gives the dotted host and the port |
| TextIds.DottedReadsBack | src/misc.cpp:9-16 | Split at its dots a dotted host reads as its four components in their order |
| TextIds.PortAlone | src/socket_helpers.h:52-58 | An address that is a number alone names the default host, and the port is the number cut to 16 bits |
| TextIds.DecimalDigitAt | src/misc.cpp:9-16 | Each decimal digit printed is the one division gives, from the last to the first |
| TextIds.AtoiOfDecimal | src/socket_helpers.h:52-58 | `atoi` reads back every printed number |
| TextIds.AtoiOfText | src/socket_helpers.h:52-58 | `atoi` takes a sign, passes over blanks, and reads the digits up to the first character that is none |
| TextIds.ScanOfPrint | src/misc.cpp:21-48 | Scanning undoes printing for every format of fields and dashes, on either host |
| TextIds.GuidRoundTrip | src/misc.cpp:21-48 | Every 16 bytes survive the text form, which fits its 64 bytes, whatever the result held before |
| TextIds.GuidLayout | src/misc.cpp:21-32 | The text of a GUID: 36 characters in groups of 8, 4, 4, 4 and 12, three numbers of the host and then the single bytes in order |
| TextIds.HexDigitAt | src/misc.cpp:21-32 | Each hexadecimal digit printed is the one division gives, in lower case |
| TextIds.ComIdRoundTrip | src/misc.cpp:18-19 | A COM endpoint id splits at its first bar into `com` and a text that reads back as the GUID |

## Left out

- COM endpoints, process spawning, activation contexts, `com_init.cpp`, `lifetime.h`, logging: calls into code that is not part of this model.
- Real sockets, pipes, `select` and `fread`: byte queues, a ready set taken once per pass, and reads that return what is there. `FD_SETSIZE`, `max_backlog`, and failures of `accept`, `setsockopt`, `bind` and `listen` are not modelled; a failing `accept` would end the loop through an exception.
- A failing `select` in the Unix read takes part in `CancelUnix.Impl.Read` only; the transition system of `CancelUnix` has interrupted ones, no failing ones.
- A frame of declared length 0: `handle_session` takes the address of element 0 of an empty vector, which C++ leaves undefined; the model delivers an empty message.
- The codec of `strmd`: a message is a record of id, token and payload. A subscription is given the payload without the token's own bytes, and the argument object that handler thunks reuse is not modelled.
- A packet without a token that reaches the token lookup: notifications carry an arbitrary token instead.
- `tasker::private_queue`: a first-in first-out queue whose tasks do nothing once the session has gone.
- `shared_ptr` counts: a handle is a chain of links with serial numbers, and a link dies when no handle leads to it. Handles held inside callbacks, callbacks that release handles or send requests while they run, and exceptions from callbacks are not modelled.
- Two threads calling `message` on one socket, whose two sends may interleave; `socket_handler::message` and the stream's `message` use the encoding modelled here and are not modelled again.
- What `sscanf` accepts beyond the printed form (blanks, signs, `0x`), and `atoi` out of range.
- SocketHandles.SocketHandle.constructor: the member initialiser only; the reset that follows it is `Assign`, whose exception leaves no object.
- Routing.ResponsesReachTheirRequest: does not model the wrap-around of 64-bit tokens, since 2^64 requests would be needed.
- SocketServerInvariants.StepInv: does not model the wrap-around of 32-bit handler ids, since 2^32 connections would be needed.
- CancelWin32.CancelIsFinal: does not cover a `cancel_io` that returns true for a thread outside the platform's read.
- Liveness beyond what is stated: that a thread with a step to take is scheduled, that clients send or close.
- ClientSessionObject.Session.RequestOne: does not state that the callback is registered before the message leaves, since its contract compares the states before and after.
- ClientSessionObject.Session.RequestMany: likewise.
