# Monkey HTTP server core, modelled in Dafny

This project models the core of the Monkey HTTP server and proves properties
of the model. The core is three parts:

- **src/mk_server.c** has several jobs.
  - It decides how many clients can be attended. That is the configured
    FDLimit against the process's RLIMIT_NOFILE, returned as `unsigned int`.
  - It builds, frees and searches the table of listening sockets.
  - It accepts a connection on a listening socket.
  - It registers the listeners with a worker's event loop.
  - It holds the rule by which a worker dispatches each reported event. READ
    is tested before WRITE and WRITE before CLOSE. A READ event goes to the
    signal channel, the timeout descriptor, a listener, or a client
    connection. `ret` carries from event to event, and a negative `ret`
    forces a close.
- **include/monkey/mk_stream.h** is about channels and streams. A channel owns
  an ordered list of streams. `mk_stream_set` initialises a stream and links
  it at the tail. `mk_stream_unlink` removes it. `mk_stream_bytes_consumed`
  lowers the remaining byte count.
- **src/monkey.c** (`main`) reads the options getopt_long reports into local
  settings. Each configuration field then gets the option's value or its
  compiled-in default. A REUSEPORT server whose listen address is busy aborts
  unless `-T` allows shared sockets.

Files:

- `common.dfy`: `Option` (a nullable pointer), the C integer widths, the
  scheduler modes and exit statuses.
- `event.dfy`: the event-mask bits of include/monkey/mk_event.h.
- `server.dfy`: module `Server`, for src/mk_server.c.
- `stream.dfy`: module `Streams`, for include/monkey/mk_stream.h.
- `monkey.dfy`: module `Monkey`, for src/monkey.c.

The model follows the source's own form.

- The listener table (`struct mk_server_listen`) is the class
  `Server.ServerListen`. Its entries are kept in an `array`.
- The scheduler's connection counter is the class `Server.Scheduler`.
- Channels and streams are the classes `Streams.Channel` and
  `Streams.Stream`. The intrusive `mk_list` of a channel is the field
  `streams: seq<Stream>`.
- Each loop of the source is a method with a `while` loop. The method is
  proved against a specification function:
  - `InitEntries` for init;
  - `Listens` for check;
  - `Registrable` for registration;
  - `Batch` and `Dispatch` for the event loop;
  - `CmdLineOf` for the option loop.
  Lemmas prove what those functions mean.

System calls and code in other files are parameters (oracles). These stand
in for them:

- for `mk_socket_server`, a function `socketServer`;
- for `calloc` succeeding, a boolean `allocOk`;
- for the checks and calls of the accept path, an `AcceptOracle`;
- for each event's `read` / `mk_conn_read` / `mk_conn_write` result, an
  `IoResult`;
- for `atoi`, a function `atoi`;
- for what `mk_config_start_configure` and `mk_config_listen_check_busy`
  produce, the scheduler mode and a busy flag.

## Model

| member | source | states |
|---|---|---|
| Common.AsUnsigned | src/mk_server.c:36-62 | An `int` returned as `unsigned int` is kept if non-negative and gains 2^32 if negative. |
| Server.Capacity | src/mk_server.c:36-63 | A positive FDLimit is used when the file limit in force allows it. An FDLimit that could not be obtained is replaced by the old soft limit. Without a positive FDLimit, the limit in force is used. The capacity never exceeds a non-negative limit in force. |
| Server.CapacityDetermined | src/mk_server.c:36-63 | Capacity's cases determine its value completely: any value meeting them is Capacity's. |
| Server.InitListens | src/mk_server.c:161-193 | After init, a descriptor is in the table exactly when it is a socket created for some listener. -1 is in the table exactly when some listener failed to bind. |
| Server.ServerListen.Free | src/mk_server.c:136-141 | The table is left with a NULL entry array, count 0 and no entries. |
| Server.ListenInit | src/mk_server.c:143-202 | Returns -1 exactly when the config or the table is NULL or calloc fails, and then changes nothing. On 0 the table has one entry per listener, in order: the created socket, or -1 if binding failed. |
| Server.ListenCheck | src/mk_server.c:65-80 | True exactly when the table is not NULL and one of its entries holds the descriptor. |
| Server.ListenHandler | src/mk_server.c:82-134 | For a listening socket, when every step succeeds, returns the accepted descriptor and adds one to the counter modulo 2^64. Otherwise returns -1 and leaves the counter alone. It closes the accepted descriptor exactly when accept succeeded and a later step failed. |
| Server.RegistrableExact | src/mk_server.c:338-345 | The registered descriptors are exactly the table's descriptors that are >= 0. |
| Server.RegisterListeners | src/mk_server.c:338-345 | Adds, in table order, every entry whose socket exists and skips failed entries. The set added is the table's non-negative descriptors. |
| Server.Classify | src/mk_server.c:353-394 | The signal channel is tested first, then the timeout descriptor, then the listener table. A descriptor is a listener only if it is neither of the first two. |
| Server.ClassifyEvent | src/mk_server.c:353-391 | For a READ event, the class the tests in the source's order produce, asking the listener table only when needed. |
| Server.DispatchRules | src/mk_server.c:352-406 | READ wins over WRITE and WRITE over CLOSE. An event with none of the three bits reuses the previous `ret`. An fd is force-closed exactly when `ret < 0` and the branch did not `continue`. READ events on the signal channel, the timer or a listener never close. Only a FREE_ALL read on the signal channel shuts down. |
| Server.DispatchIgnoresClass | src/mk_server.c:353-401 | The descriptor's class affects only READ events. |
| Server.BatchStopsAtShutdown | src/mk_server.c:352-370 | A pass handles events in order, has no Shutdown before its last step, and ends short of the last event only with a Shutdown. |
| Server.BatchAdvance | src/mk_server.c:352-407 | Handling the next event extends the steps towards the whole pass; a Shutdown ends it. |
| Server.DispatchEvents | src/mk_server.c:350-408 | The steps taken are the dispatch rule applied to each event in order, with `ret` carried over. The loop stops exactly after a FREE_ALL. Without a stop every event is handled. The final `ret` is the last step's. |
| Streams.IndexOf | include/monkey/mk_stream.h:148-151 | The first position that holds the stream. |
| Streams.WithoutAt | include/monkey/mk_stream.h:148-151 | Removing a stream that occurs once is cutting the list at its position. |
| Streams.WithoutAbsent | include/monkey/mk_stream.h:148-151 | Removing an absent stream changes nothing. |
| Streams.WithoutKeepsOthers | include/monkey/mk_stream.h:148-151 | Unlinking removes exactly one element, removes the stream and keeps every other stream. The list stays duplicate-free. |
| Streams.Channel.AppendStream | include/monkey/mk_stream.h:103-107 | The stream is linked at the tail; the list stays duplicate-free. |
| Streams.Stream.Set | include/monkey/mk_stream.h:109-146 | Sets type, channel, buffer, data and callbacks, zeroes the offset and clears preserve. `bytes_total` comes from the iov for IOV, from the ptr for PTR, and from `size` otherwise. The stream is appended to the channel; fd, encoding and cb_ok are unchanged. |
| Streams.Stream.Unlink | include/monkey/mk_stream.h:148-151 | The stream leaves its channel's list; the others keep their order and the list shrinks by one. |
| Streams.Stream.BytesConsumed | include/monkey/mk_stream.h:153-179 | The `size_t` count drops by `bytes` modulo 2^64. It drops exactly by `bytes` when `0 <= bytes <= bytes_total`. |
| Monkey.LastArg | src/monkey.c:180-236 | The argument of an option's last occurrence, None if it never occurs. |
| Monkey.Terminal | src/monkey.c:180-190 | None exactly when no `-b`/`-v`/`-h`/unknown option occurs. Otherwise it is the exit status of the first such option. |
| Monkey.LastArgSnoc | src/monkey.c:180-236 | One more option changes only the setting it names and wins over earlier occurrences. |
| Monkey.CmdLineOfNone | src/monkey.c:180-181 | With no options every local keeps its declared value. |
| Monkey.CmdLineOfSnoc | src/monkey.c:180-236 | The settings after one more option are the earlier settings overwritten by that option. |
| Monkey.ReplayIsLastOccurrence | src/monkey.c:180-236 | Overwriting option by option from first to last ends where taking each option's last occurrence does. |
| Monkey.ApplyOption | src/monkey.c:191-232 | A non-terminal option overwrites exactly the setting it names. |
| Monkey.ParseOptions | src/monkey.c:180-236 | Exits exactly when a terminal option occurs, with the first one's status. Otherwise each setting is its option's last value. |
| Monkey.Launch | src/monkey.c:238-369 | A terminal option exits with its status. Otherwise the only exit is the REUSEPORT-busy abort, with failure. Each path is the last value given, else its default. `pid_file`, `one_shot`, `port_override` and `transport_layer` are the last values given, else NULL. `is_daemon` is whether `-D` occurred. `workers` is the last `-w` value if non-negative, else -1. `-B` forces fair balancing. |
| Monkey.BalancingNeverAborts | src/monkey.c:336-369 | With `-B` the REUSEPORT-busy abort cannot happen. |
| Monkey.ShortSitesOptionResets | src/monkey.c:180-223 | A trailing short `-S` (reported without argument) resets the sites directory to its default. |

## Left out

- `mk_server_launch_workers`, `mk_server_loop_balancer` and
  `mk_server_loop` in src/mk_server.c are left out. They create threads and
  run the master's accept and signalling loops, which are not part of the
  modelled decisions.
- `mk_version`, `mk_build_info`, `mk_help`, `mk_exit_all` and
  `mk_thread_keys_init` in src/monkey.c are left out. They print, exit or
  set up thread keys.
- The worker's wait for the START signal (src/mk_server.c:321-336) is left
  out. It is a blocking read on a pipe.
- `mk_server_worker_loop` is modelled one pass of `mk_event_foreach` at a
  time (`DispatchEvents`). Its outer `while (1)`, `mk_event_wait` and the
  timeout creation are left out.
- `mk_channel_debug` and every `mk_warn`/`mk_err`/`MK_TRACE` call are left
  out; they only print. The `TRACE` branch of `mk_stream_bytes_consumed`
  is left out for the same reason.
- `mk_stream_new`, `mk_channel_new` and `mk_channel_write` are only declared
  in the header; their bodies are not part of this model. The class
  constructors give a fresh channel with no streams and a stream not yet
  linked.
- The following are assumed, not modelled: `mk_list_add` appends at the
  tail, and `mk_list_del` removes exactly the given node. mk_list.h is not
  part of this model.
- `Streams.Stream.Unlink` takes the owning channel as a parameter. The
  source finds the list through the node's own links.
- `Streams.Stream.Set` requires the caller to hand an iov for an IOV stream
  and a ptr for a PTR stream, and a stream not yet in the channel's list.
  The source reads `buffer` as that type without checking, and re-linking a
  linked node corrupts the list.
- `Server.ListenInit` models a single listener sequence. The source counts
  the global `mk_config->listeners` but fills from `config->listeners`;
  every caller passes the global config.
- `Server.ListenInit` does not model `mk_socket_set_tcp_defer_accept`. Its
  failure only prints a warning.
- `Server.Capacity` takes the result of `setrlimit` as a parameter.
  `getrlimit`'s `rlim_t` is taken as already truncated to `int`, as the
  assignment `cur = lim.rlim_cur` does.
- The signal values MK_SCHEDULER_SIGNAL_DEADBEEF and _FREE_ALL and the
  compiled-in default paths are defined in headers that are not part of this
  model. They are the datatype `Server.Signal` and the parameter
  `Monkey.Defaults`.
- In `main`, `mk_config_init`, kernel probing, signals, plugins, daemonising,
  PID registration, the clock thread and the sanity check are left out. They
  are foreign calls with no effect on the modelled fields. Values that
  `mk_config_start_configure` reads from configuration files are left out
  too, except the scheduler mode, which is an input to `Monkey.Launch`.
- getopt_long itself is not modelled; its reported option sequence is the
  input. `-h` and an unknown option call `mk_help`, which is taken to exit
  with the given status.
- `Monkey.Launch` models `transport_layer` as the argument string itself. The
  source stores a copy (`mk_string_dup`).
