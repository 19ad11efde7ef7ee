# A verified model of the tunnel

This project models the logic of ScholarVPN in Dafny 4.11 and proves what it is
for. `dafny verify dfyconfig.toml` checks all of it.

## What is modelled

**The tunnel protocol.** `Protocol` holds the messages and the cryptography as
symbols: a key is the term it was derived from, a sealed payload opens only
under the same key and header, a signature names its signer and its text.
`ServerSpec` gives every handler and locked section of the server as a function
from state to state: admission with its caps and eviction, the staged
handshake with its cached reply, registration and login, three-tier address
allocation with leases, the kick of same-key sessions, routing, release.
`UdpServer` is the server in its own form, session objects in a table updated in
place with the loops of the original, and every method refines the function of
its name. `ClientSpec` and `ClientObject` are the same for the client.

`ServerInv`, `ServerSteps`, `ServerMoves` and `ServerRuns` prove what every run
keeps: one bijection between used addresses, index and live sessions; the caps;
the stage invariant; each ephemeral key used once; at most one login per key.
`ServerHandshake` treats repeated hellos, `ServerCounting` frame numbers and replay
windows, `ServerLeases` sticky addresses, `ServerLedger` registration tokens and
signatures.
`World` puts the server and any number of clients on a network that loses, repeats,
reorders and misdelivers frames, and to which outsiders may add clear ones and ones
sealed under keys of their own; `Agreement` proves that an authenticated client and
the server agree, each way and one to one. `ClientRuns` follows one connection of a
client and joins its numbers and window with the server's. `ServerProgress` and
`ClientProgress` give the conditions under which keys are derived, a login is made and
a packet passes, each exactly; `Handshake` puts them together to whole executions that
end with both sides authenticated.
`ReplayWindow`, `VipPool` and `RateLimiter` are the objects the server is made of,
each with its own laws.

**The byte streams.** `Frames`, `TcpSending`, `TcpClient`, `TcpServerConn` and
`TcpTunnel`: frame reassembly over arbitrary chunks and partial-write queues on both
sides, composed into "frames delivered are a prefix of frames sent", over whole runs
of sends and with the exact condition for the client's half.

**Routing data.** `Cidr`, `ChnRoute` and `CidrText`: ranges merged and split into the
smallest list of CIDR blocks, printed, and parsed back by the client. `Bits` holds
the arithmetic of masks.

**Formats.** `IdentityCodec` (the identity message), `DomainExtract` (host names in DNS
queries and TLS hellos), `AdminFraming` and `AdminJson` (the administration wire
format), `IniDoc` (the line-preserving configuration editor), `IniNames` and `IniPut`
(section names, and one value written through the file), `ConfigServers` (the server
list kept in that file), `ConfigReading` (what is read for a server), `ConfigRenumber`
(when loading settles the list) and `ConfigExamples`. `Text` has the character-level helpers.

Three ways of stating a result recur. A method that updates state is proved equal
to a function of the old state; the properties are lemmas about that function. A
property of runs is an invariant of the step function, lifted by induction. Where
the code does not always do what its comments say, the lemma gives the exact
condition under which it does.

## Where the code and its comments part

- At stage KEYS a hello with the session's own nonce is not recognised as a
  retransmission, because the private key it would be recognised by is already
  gone; it restarts the handshake (server/UDP/UDP.cpp:1335-1352).
  `ServerHandshake.KeysSurviveHelloIff` is the exact condition.
- `disconnect` is not in the list of types the server seals
  (server/UDP/UDP.cpp:755-760), and clients open only sealed ones, so the server's
  goodbye has no effect (`Agreement.ByeIsIgnored`).
- The client stores the nonce and key of any ServerHello before verifying it
  (src/UDP.cpp:954-955). Agreement is therefore about the values in its keys, and
  `Agreement.LateHelloSpoilsIff` says when a late hello makes the login fail.
- `read_conn` may return on its budget of 64 frames with whole frames buffered
  (server/TCP/tcpserver.cpp:375-429); what is proved of it is prefix safety.
- A DNS name of more than sixteen labels is cut to sixteen, not refused
  (server/ServiceDB.cpp:248-263).
- A JSON value equal to a later key, or ending in a quote and that key, makes the
  lookup land one field behind it (server/ServerAdmin/AdminWire.h:82-94); `Lookup`
  says where.
- `del_section("")` leaves the lines before the first header (src/platform/ini_doc.h:266-282).
- `raw_send` looks at neither `m_need_reconnect` nor an earlier failure
  (src/tcp.cpp:163-238). After a send that loses bytes, a later one still goes out, and
  the frames the server handles need not be a prefix of those sent;
  `TcpTunnel.UplinkIsPrefix` is the exact condition, `TcpTunnel.CutFrameIsForged` a run.
- A stream session that reached the re-key limit is only asked to drop
  (server/UDP/UDP.cpp:731-748); `ServerCounting.NumbersRepeat` is what follows if it is
  not closed.
- A header such as `[server1]` takes the keys written for Server1 and is never collected
  (Config.cpp:410-437), and every reading strips one pair of quotes. So loading the
  server list settles it only under the condition of `ConfigRenumbers.SettlesIff`.

## Model

| member | source | states |
|---|---|---|
| Replay.ReplayWindow.constructor | src/replay_window.h:58-62 | a new window has accepted nothing |
| Replay.ReplayWindow.Accept | src/replay_window.h:22-44 | the shifted 64-bit bitmap decides as the set of all numbers ever accepted does: true exactly when the number is new and less than 64 below the highest |
| Replay.ReplayWindow.TooOld | src/replay_window.h:48-56 | the check before decryption changes nothing, and what it rejects Accept would reject |
| Replay.ReplayWindow.Reset | src/replay_window.h:58-62 | forgets every number |
| Replay.VerdictClosedForm | server/UDP/Session.h:35-88 | over any run of offers, an offer passes iff its number never came before and is less than 64 below the largest that came before |
| Replay.AtMostOnce | src/replay_window.h:22-44 | no number passes twice in a run |
| Replay.InOrderAllPass | server/UDP/UDP.cpp:728-751 | numbers offered in increasing order, as a stream delivers them, all pass |
| Replay.TooOldStays | src/replay_window.h:48-56 | a number once too old stays too old |
| Cidrs.MaskValue | src/platform/cidr.h:27-30 | the mask of a prefix is the high bits |
| Cidrs.NormalizeRoundsDown | src/platform/cidr.h:126-129 | normalising rounds the address down to a multiple of the block size and keeps the set of addresses |
| Cidrs.ContainsIsInterval | src/platform/cidr.h:145-154 | contains holds exactly for the addresses of one aligned interval |
| Cidrs.Laminar | src/platform/cidr.h:151-154 | two aligned blocks are nested or disjoint |
| ChnRoute.SortRanges | scripts/gen_chnroute.py:53-55 | a sorted permutation of the ranges |
| ChnRoute.MergeRanges | scripts/gen_chnroute.py:53-62 | sorted ranges with a gap between any two, covering exactly the input addresses |
| ChnRoute.LargestBlock | scripts/gen_chnroute.py:69-73 | the low-bit mask and the halving loop find the largest aligned block that starts there and fits |
| ChnRoute.RangeToCidrs | scripts/gen_chnroute.py:65-76 | aligned ascending blocks tiling the range exactly, each maximal |
| ChnRoute.GreedyIsMaximal | scripts/gen_chnroute.py:65-76 | a greedy block lies in no larger aligned block inside the range |
| ChnRoute.MaximalCoverIsSmallest | scripts/gen_chnroute.py:65-76 | a cover by maximal blocks has no more elements than any aligned cover of the same addresses |
| ChnRoute.Aggregate | scripts/gen_chnroute.py:79-99 | the list covers exactly the input addresses with ascending disjoint blocks, and no list of aligned blocks with the same union is shorter |
| CidrText.ParseOctet | src/platform/cidr.h:34-53 | reads the one to three digits of an octet, refuses more than 255 |
| CidrText.ParsePrefix | src/platform/cidr.h:93-119 | reads an optional prefix up to 32 and nothing but blanks behind it |
| CidrText.Parse | src/platform/cidr.h:59-123 | the scanner agrees with the recursive reading of four octets, an optional prefix and blanks around them |
| CidrText.ParsedIff | src/platform/cidr.h:59-123 | accepted exactly when the line is four dotted octets of one to three digits, leading zeros allowed, and nothing or a slash and digits worth at most 32 behind them, blanks aside; it means the block they say, a host without a prefix length |
| CidrText.ParseOfToString | src/platform/cidr.h:59-142 | parsing a printed block, blanks around it or not, gives the block back |
| CidrText.ParsedIsOk | src/platform/cidr.h:59-123 | whatever parses has an address below 2^32 and a prefix of at most 32 |
| CidrText.WritePrefixes | scripts/gen_chnroute.py:93-112 | an address is in some printed line, as the client parses and tests it, iff it was in an input range |
| Frames.Inspect | src/tcp.cpp:313-345 | the receivers' checks recognise exactly the complete frame, incomplete frame or garbage at the front of a buffer |
| Frames.GotIff | src/tcp.cpp:313-345 | a buffer starts with a frame iff some header and payload of at most 1429 bytes lay out its beginning |
| Frames.BadIff | src/tcp.cpp:313-345 | it is garbage iff a whole header is there and nothing that may follow makes it a frame |
| Frames.EncodeIsWellFormed | src/UDP.cpp:295-373 | what send_packet lays out is one frame of at most 1441 bytes with that payload |
| Frames.NextFrameExtends | src/tcp.cpp:313-345 | a complete frame stays the same frame whatever bytes follow |
| Frames.ReadingsAgree | server/TCP/tcpserver.cpp:367-436 | two readings of one stream agree: one that left bytes unread found a prefix of the frames |
| TcpClients.TcpClient.CompactRx | src/tcp.cpp:288-307 | moving or dropping consumed bytes changes no unread byte |
| TcpClients.TcpClient.TakeFrame | src/tcp.cpp:313-345 | hands out the frame at the front of the unread bytes, if whole |
| TcpClients.TcpClient.RecvFrame | src/tcp.cpp:350-436 | one frame at most; the socket is asked only when no whole frame is buffered; no byte is lost or repeated |
| TcpClients.TcpClient.FlushTxPending | src/tcp.cpp:241-283 | does what the specified flush does; written bytes and remaining backlog together are the old ones, also when it fails |
| TcpClients.TcpClient.RawSend | src/tcp.cpp:163-238 | result, written bytes and backlog are those of the specified send, whatever failed before; m_need_reconnect is raised iff it fails |
| TcpClients.TcpClient.WriteFrame | src/tcp.cpp:163-238 | writes the frame or keeps the rest as backlog; on failure part of the frame may be written and the rest is forgotten |
| TcpSendings.FlushedTakes | src/tcp.cpp:241-283 | a flush writes as much of the backlog as the socket has room for, keeps the rest, and fails iff the socket does with some left |
| TcpSendings.SentTakes | src/tcp.cpp:163-238 | a send writes as much of backlog and frame as there is room for; it fails iff the backlog is too long or the socket fails with some left, and only the direct path then forgets the rest |
| TcpSendings.SentAdds | src/tcp.cpp:163-283 | a send adds to written ++ backlog the frame or a proper part of it, the latter exactly when it fails without backlog or for a backlog too long |
| TcpSendings.CarriedInRun | src/tcp.cpp:163-283 | over any run of sends, bytes carried up to the first loss are the bytes offered, and every byte behind it was offered at a later place |
| TcpSendings.RunAlike | src/tcp.cpp:163-283 | the transport does with the bytes what it does with their places |
| TcpSendings.InPlaceIff | src/tcp.cpp:163-283 | over any run of sends, the first n bytes written stand where they were offered iff n does not pass the first loss, and then they are the first n offered |
| TcpServerConns.TxQueue.Submit | server/UDP/UDP.cpp:799-820 | a frame enters the session queue whole, or the queue is over its 2 MB and is left alone |
| TcpServerConns.Conn.MoveQueued | server/TCP/tcpserver.cpp:443-462 | queued frames move to the connection buffer in order |
| TcpServerConns.Conn.FlushConnTx | server/TCP/tcpserver.cpp:438-499 | of all bytes buffered and queued exactly as many are written as the socket has room for, the rest is kept; it fails iff the socket does with bytes left or the change of interest is refused; interest in writability is on iff bytes are left |
| TcpServerConns.Conn.HandleOne | server/TCP/tcpserver.cpp:384-417 | parses one frame off the buffer |
| TcpServerConns.Conn.ReadConn | server/TCP/tcpserver.cpp:367-436 | every read up to where it stops is buffered, whole frames are handed over in order; it stops when the kernel has no more or 64 frames are done, and fails for a closed or failed socket, a full buffer, garbage or a drop asked for, and nothing else |
| TcpServerConns.Conn.NothingLost | server/TCP/tcpserver.cpp:438-499 | written bytes are a prefix of all frames accepted for this connection |
| TcpTunnel.UplinkIsPrefix | src/tcp.cpp:163-283 | client to server, over any run of sends: the bytes of the frames handled stand where they were offered iff they end before the first lossy send, and then the frames are a prefix of the frames sent, in order |
| TcpTunnel.UplinkWhileConnected | src/tcp.cpp:163-283 | as long as m_need_reconnect is not raised, the frames handled are a prefix of the frames sent |
| TcpTunnel.UplinkComplete | server/TCP/tcpserver.cpp:367-429 | nothing lost, everything written and read: the frames handled are exactly the frames sent |
| TcpTunnel.CutFrameShifts | src/tcp.cpp:210-218 | a frame cut after five bytes and another one sent after it: whatever they are, the bytes written are no prefix of those offered |
| TcpTunnel.CutFrameIsForged | src/tcp.cpp:210-218 | a frame cut before its one byte of payload and another one sent after it: the server handles a frame that was never sent |
| TcpTunnel.DownlinkIsPrefix | server/TCP/tcpserver.cpp:367-499 | server to client: the frames handed out are a prefix of the frames accepted for sending |
| TcpTunnel.DownlinkComplete | src/tcp.cpp:350-436 | with everything written and everything read, the frames handed out are exactly the frames accepted |
| RateLimiters.RateLimiter.DropIdle | server/UDP/UDP.cpp:429-434 | removes exactly the entries idle for more than ten seconds |
| RateLimiters.RateLimiter.AllowHandshakeRecompute | server/UDP/UDP.cpp:417-461 | verdict and table of the token bucket |
| RateLimiters.PruningIsInvisible | server/UDP/UDP.cpp:426-435 | a dropped entry would have been full again, so no later call can tell |
| RateLimiters.AllowByLevel | server/UDP/UDP.cpp:437-459 | a call is granted iff the source has at least one token, and costs exactly one |
| RateLimiters.LevelOverTime | server/UDP/UDP.cpp:441-446 | tokens refill at 20 a second up to 40 |
| RateLimiters.WindowBound | server/UDP/UDP.cpp:417-461 | over any window of d ms a source gets at most 40 + 20 d / 1000 grants, and 40 more for every time the table was cleared whole |
| RateLimiters.PruningChangesNoRun | server/UDP/UDP.cpp:426-435 | with and without pruning every run of calls is granted alike |
| VipPool.VirtualIpPool.constructor | server/UDP/Session.h:246-277 | the host range excludes network and broadcast address; prefixes 31 and 32 leave it empty |
| VipPool.VirtualIpPool.Allocate | server/UDP/Session.h:281-320 | a lucky draw or the lowest free address |
| VipPool.VirtualIpPool.PreferredFor | server/UDP/Session.h:325-341 | the address of the FNV-1a hash, moved off the gateway |
| VipPool.VirtualIpPool.Release | server/UDP/Session.h:344-349 | frees exactly that address |
| VipPool.VirtualIpPool.TryAcquire | server/UDP/Session.h:352-365 | succeeds exactly on a free host address other than the gateway |
| VipPool.AllocatedIsFree | server/UDP/Session.h:281-320 | what is handed out was a free host address, and nothing is handed out only when none is free |
| VipPool.PreferredIsHost | server/UDP/Session.h:325-341 | the candidate of an identity is a host address, never the gateway, for ranges of two and more |
| ServerInv.StartedIsInv | server/UDP/UDP.cpp:464-510 | a server that has just started satisfies the invariant |
| ServerInv.ReleaseKeeps | server/UDP/UDP.cpp:230-261 | release keeps the invariant |
| ServerInv.ReleaseAllKeeps | server/UDP/UDP.cpp:1627-1651 | ending any set of sessions keeps the invariant; no address leaks or is shared |
| ServerInv.AdmitKeeps | server/UDP/UDP.cpp:153-227 | admission, with eviction, keeps the invariant and so the three caps |
| ServerInv.AdmitSparesAuthenticated | server/UDP/UDP.cpp:178-218 | making room never removes or alters an authenticated session |
| ServerInv.AdmitAddsOnlyNewcomer | server/UDP/UDP.cpp:153-227 | admission adds nothing but a blank session for the newcomer |
| ServerInv.EvictMakesRoom | server/UDP/UDP.cpp:190-218 | evicting the oldest pending session leaves the source below its limit |
| ServerInv.SendKeeps | server/UDP/UDP.cpp:719-831 | sending keeps the invariant: every identity_ok sealed announces what some login holds |
| ServerSteps.HelloKeeps | server/UDP/UDP.cpp:1285-1383 | auth_hello keeps the invariant, cached reply included |
| ServerSteps.ClientHelloKeeps | server/UDP/UDP.cpp:1385-1441 | key derivation keeps the invariant: keys from the current nonces and public values, private key gone and spent once |
| ServerSteps.DenyKeeps | server/UDP/UDP.cpp:1479-1485 | a refusal keeps the invariant |
| ServerSteps.RegistryKeeps | server/UDP/UDP.cpp:1550-1587 | consulting the register keeps the invariant |
| ServerSteps.AllocateGives | server/UDP/UDP.cpp:279-356 | allocation takes one free host address, or nothing |
| ServerSteps.LogInKeeps | server/UDP/UDP.cpp:1624-1688 | kick, allocate, index, open the gate: the address bijection and the log of logins survive |
| ServerSteps.IdentityKeeps | server/UDP/UDP.cpp:1456-1688 | the whole identity stage keeps the invariant |
| ServerSteps.DataKeeps | server/UDP/UDP.cpp:1153-1224 | data keeps the invariant: what enters the tunnel bears the bound address |
| ServerSteps.FramedKeeps | server/UDP/UDP.cpp:1066-1275 | any frame, genuine or not, keeps the invariant |
| ServerMoves.HelloEffect | server/UDP/UDP.cpp:1285-1383 | auth_hello makes a quiet move or a restart, and nothing at all on a logged-in session |
| ServerMoves.ClientHelloEffect | server/UDP/UDP.cpp:1385-1441 | auth_client_hello makes a quiet move, hears a key or derives keys |
| ServerMoves.IdentityEffect | server/UDP/UDP.cpp:1456-1688 | an identity message leads to a login only if it holds for this handshake, and then under its own names |
| ServerRuns.FramedEffect | server/UDP/UDP.cpp:1066-1275 | one frame makes one of six moves on its session and touches others only by ending those of the same key at a login |
| ServerRuns.StepKeeps | server/UDP/UDP.cpp:1066-1275 | every event keeps the invariant |
| ServerRuns.StepUnique | server/UDP/UDP.cpp:1385-1441 | no two sessions or logins ever stem from one ephemeral key of the server |
| ServerRuns.RunKeeps | server/UDP/UDP.cpp:153-1688 | after any run from a fresh start: stages, address bijection, caps, single-use ephemeral keys, sound history, unique logins |
| ServerRuns.StagesOnEveryRun | server/UDP/UDP.cpp:1327-1441 | authenticated, handshaked and stage AUTHED agree; with keys the private key is gone and the keys are those of the session's nonces and public values; without, there are none |
| ServerRuns.CapsOnEveryRun | server/UDP/UDP.cpp:163-223 | at most max_clients sessions, 8 per source, 32 not yet handshaked |
| ServerRuns.HistoryOnEveryRun | server/UDP/UDP.cpp:1153-1224 | each ephemeral key makes at most one key pair; each packet let in came from the address of a login of its session |
| ServerRuns.PlaintextChangesNothing | server/UDP/UDP.cpp:1253-1275 | no unsealed frame changes a logged-in session |
| ServerRuns.LoginIsPermanent | server/UDP/UDP.cpp:1325-1331 | keys, names and address of a logged-in session never change while it lives |
| ServerRuns.LoginOutlivesRun | server/UDP/UDP.cpp:1327-1352 | the same over whole runs |
| ServerRuns.OnlyOwnOrSameKeyEnds | server/UDP/UDP.cpp:1627-1651 | a logged-in session ends only by its own event or by a newer login with the same public key |
| ServerRuns.RouteIsSearch | server/UDP/UDP.cpp:640-657 | routing by the index is a linear search of the table for the address |
| ServerRuns.AddressesAreExact | server/UDP/UDP.cpp:640-657 | no two sessions share an address, each is a host address and not the gateway, none is in use without a session |
| ServerRuns.ReleaseTwice | server/UDP/UDP.cpp:230-261 | releasing twice is releasing once, and frees exactly the session's address |
| ServerRuns.ReleaseUnroutes | server/UDP/UDP.cpp:230-261 | after a release its address routes nowhere, every other as before |
| ServerHandshake.RetransmissionOnlyResends | server/UDP/UDP.cpp:1333-1341 | same nonce while waiting for the client key: the same signed reply again, no handshake state changed, no token charged |
| ServerHandshake.KeysSurviveHelloIff | server/UDP/UDP.cpp:1333-1371 | with keys derived a hello leaves them alone iff it cannot be signed, names another nonce or is over its rate; a repeat of the own nonce restarts the handshake |
| ServerHandshake.ByeIsNeverSealed | server/UDP/UDP.cpp:750-797 | the server's disconnect is not among the types it seals, so no key opens it |
| ServerLeases.LeaseHolder | server/UDP/UDP.cpp:308-319 | a leased address in use belongs to a live session of its client id |
| ServerLeases.LeaseIsFree | server/UDP/UDP.cpp:1640-1663 | once same-key sessions are kicked, a leased host address is free for its owner |
| ServerLeases.CalmAllocation | server/UDP/UDP.cpp:279-356 | a calm login gets its leased address, or one nobody else has leased |
| ServerLeases.OneAddressPerId | server/UDP/UDP.cpp:279-356 | over any run of calm logins two logins have the same address iff they have the same client id |
| ServerLedger.RegistryBooks | server/UDP/UDP.cpp:1550-1587 | a registration uses up its token; a login needs its key on file |
| ServerLedger.RunBooks | server/UDP/UDP.cpp:1550-1587 | over any run every login has a registered key and no more keys were added than tokens used up |
| ServerLedger.LoginIsSigned | server/UDP/UDP.cpp:1523-1548 | a login is made only for a message, opened under the session's key, in which the public key signs exactly this handshake and client id |
| UdpServers.PeerSession.constructor | server/UDP/Session.h:126-137 | a new session is blank |
| UdpServers.PeerSession.Restart | server/UDP/UDP.cpp:1355-1370 | the reset of a handshake |
| UdpServers.PeerSession.TakeKeys | server/UDP/UDP.cpp:1403-1439 | both keys from one secret, private key destroyed, stage KEYS |
| UdpServers.UdpServer.constructor | server/UDP/UDP.cpp:464-482 | the server as start() leaves it |
| UdpServers.UdpServer.GetOrCreateSession | server/UDP/UDP.cpp:153-227 | the loops over the table count, choose the oldest pending session of the source and admit as the specification does; the invariant is kept |
| UdpServers.UdpServer.ScanSource | server/UDP/UDP.cpp:175-192 | count and oldest unauthenticated session of one source |
| UdpServers.UdpServer.CountPending | server/UDP/UDP.cpp:162-172 | the number of sessions not yet handshaked |
| UdpServers.UdpServer.ReleaseSession | server/UDP/UDP.cpp:230-261 | takes the session out, frees its address, marks it dead |
| UdpServers.UdpServer.ReleaseVirtualIp | server/UDP/UDP.cpp:358-369 | index entry and pool entry go together |
| UdpServers.UdpServer.SendPacket | server/UDP/UDP.cpp:719-831 | number, limit, seal, hand over, as specified |
| UdpServers.UdpServer.SendServerHello | server/UDP/UDP.cpp:1297-1325 | sign once, resend the cached reply |
| UdpServers.UdpServer.HandleAuthHello | server/UDP/UDP.cpp:1285-1383 | stage 1 as specified |
| UdpServers.UdpServer.HandleAuthClientHello | server/UDP/UDP.cpp:1385-1441 | stage 2 as specified |
| UdpServers.UdpServer.LeasedBySomeoneElse | server/UDP/UDP.cpp:326-340 | the scan of the lease table |
| UdpServers.UdpServer.AllocateVirtualIp | server/UDP/UDP.cpp:279-356 | lease, identity, chance, as specified |
| UdpServers.UdpServer.KickSameKey | server/UDP/UDP.cpp:1627-1651 | ends exactly the other sessions with the same public key |
| UdpServers.UdpServer.ConsultRegistry | server/UDP/UDP.cpp:1550-1587 | token and client files as specified |
| UdpServers.UdpServer.HandleIdentity | server/UDP/UDP.cpp:1456-1688 | stage 3 as specified |
| UdpServers.UdpServer.HandleData | server/UDP/UDP.cpp:1153-1224 | source binding as specified |
| UdpServers.UdpServer.HandleFramed | server/UDP/UDP.cpp:1066-1275 | dispatch as specified; a released session ignores every frame; the invariant is kept |
| UdpServers.UdpServer.ForwardTunPacket | server/UDP/UDP.cpp:627-657 | the session routed to, as specified |
| TunnelClients.TunnelClient.Init | src/UDP.cpp:107-203 | every connection starts clean, but for the announced address |
| TunnelClients.TunnelClient.SendPacket | src/UDP.cpp:295-373 | number, limit, seal, hand over |
| TunnelClients.TunnelClient.Greet | src/UDP.cpp:549-569 | auth_hello and its retransmission |
| TunnelClients.TunnelClient.Derive | src/UDP.cpp:578-620 | own ephemeral key, keys from the server values stored at that moment |
| TunnelClients.TunnelClient.BuildIdentity | src/UDP.cpp:474-533 | the signed identity message |
| TunnelClients.TunnelClient.Identify | src/UDP.cpp:622-633 | built once, sent |
| TunnelClients.TunnelClient.Repeat | src/UDP.cpp:641-658 | client key and identity message again |
| TunnelClients.TunnelClient.Conclude | src/UDP.cpp:661-686 | the end of the identity stage |
| TunnelClients.TunnelClient.Leave | src/UDP.cpp:743-747 | the sealed goodbye |
| TunnelClients.TunnelClient.HandleServerHello | src/UDP.cpp:944-985 | server values are stored before the signature is checked |
| TunnelClients.TunnelClient.HandleFrame | src/UDP.cpp:808-1006 | sealed frames under key_rx, ServerHello in the clear |
| Agreement.ServerKeepsWorld | server/UDP/UDP.cpp:1066-1275 | every server event keeps the two-party invariant |
| Agreement.DeriveKeeps | src/UDP.cpp:578-620 | a key derivation keeps it |
| Agreement.HearOk | src/UDP.cpp:808-1006 | whatever the client hears keeps it |
| Agreement.NextKeeps | src/UDP.cpp:535-1006 | everything that can happen keeps it |
| Agreement.ExecutionKeeps | src/UDP.cpp:535-1006 | it holds at every point of every execution |
| Agreement.ClientAgrees | server/UDP/UDP.cpp:1653-1688 | on every execution with loss, repetition, reordering, misdelivery and outsiders that inject clear frames and frames under keys of their own, an authenticated client shares nonces, public values, mirrored keys, names, address and prefix with exactly one login on the server |
| Agreement.ServerAgrees | src/UDP.cpp:578-682 | every login under an identity or a key that is no outsider's was asked for by exactly one client derivation with the same nonces, keys and names, and none is behind two logins |
| Agreement.AskedIsOnRecord | server/UDP/UDP.cpp:1523-1528 | an identity of ours is accepted only under a key that a client of ours derived |
| Agreement.IdentityFitsIff | server/UDP/UDP.cpp:1523-1528 | the server accepts the client's identity message iff the client's stored server values are still the session's |
| Agreement.LateHelloSpoilsIff | src/UDP.cpp:944-985 | a ServerHello heard after derivation leaves the keys alone and spoils the login iff it differs from the one they came from |
| ClientRuns.StoredStaysIff | src/UDP.cpp:944-985 | over any run after derivation the keys stay, and the stored server values are those of the keys iff the last ServerHello taken in since carried them again or none came |
| Agreement.ByeIsIgnored | src/UDP.cpp:990-1003 | the server's goodbye changes nothing at any client |
| IdentityCodec.BuildIdentityMessage | src/UDP.cpp:474-533 | a body is built iff all sizes fit and the signer signs; it signs exactly the payload sent |
| IdentityCodec.ParseIdentityMessage | server/UDP/UDP.cpp:1486-1521 | accepts exactly the bodies some client could lay out and recovers every field and the signed bytes |
| IdentityCodec.BodyIsInjective | server/UDP/UDP.cpp:1486-1521 | no body has two readings |
| IdentityCodec.RoundTrip | src/UDP.cpp:474-533 | built by the one and parsed by the other, every field comes back |
| IdentityCodec.FitsOneFrame | src/UDP.cpp:295-300 | sealed, it fits 1441 bytes |
| DomainExtract.ExtractDnsName | server/ServiceDB.cpp:232-267 | the loop reads the name that the specification reads, within the packet |
| DomainExtract.ExtractSni | server/ServiceDB.cpp:271-330 | the scan finds the host that the specification finds, within the packet |
| DomainExtract.ExtractDomain | server/ServiceDB.cpp:332-346 | no index leaves the packet, whatever the bytes |
| DomainExtract.NameOfWire | server/ServiceDB.cpp:246-263 | a name on the wire reads as its first labels, dotted and lower-cased |
| DomainExtract.DnsQueryNamed | server/ServiceDB.cpp:232-267 | a DNS query yields the lower-cased dotted name of its first sixteen labels if at most 253 long, the whole name iff there are no more labels |
| DomainExtract.ClientHelloNamed | server/ServiceDB.cpp:271-330 | any ClientHello in one segment yields its lower-cased host, whatever session id, suites and earlier extensions it carries |
| AdminFraming.Framer.Feed | server/ServerAdmin/AdminWire.h:164 | messages handed out ++ messages buffered are those of all bytes fed |
| AdminFraming.Framer.Next | server/ServerAdmin/AdminWire.h:167-179 | the next message, or none left; bad exactly on an oversized length |
| AdminFraming.ReadAppends | server/ServerAdmin/AdminWire.h:164-179 | reading bytes and then more is reading all of them |
| AdminFraming.ReadOfEncodeAll | server/ServerAdmin/AdminWire.h:138-179 | reading what was sent gives the messages sent |
| AdminFraming.ReceiveAll | server/ServerAdmin/AdminWire.h:162-179 | over every chunking exactly the messages sent come out, in order |
| AdminFraming.SendFrame | server/ServerAdmin/AdminWire.h:138-159 | over partial writes: succeeds iff the payload is small enough and the results of send suffice for header and payload; then the wire holds the whole frame, else a prefix |
| AdminFraming.SpentIff | server/ServerAdmin/AdminWire.h:138-159 | results suffice iff the first few of them, none an error, add up to the length |
| AdminJson.Escape | server/ServerAdmin/AdminWire.h:40-55 | escaping, character by character |
| AdminJson.Json.Str | server/ServerAdmin/AdminWire.h:60-65 | the text is the rendering of the fields so far |
| AdminJson.Json.Num | server/ServerAdmin/AdminWire.h:66-71 | the text is the rendering of the fields so far |
| AdminJson.FindValue | server/ServerAdmin/AdminWire.h:82-94 | behind the first colon after the first quoted key |
| AdminJson.GetString | server/ServerAdmin/AdminWire.h:97-122 | reads the string there, unescaped |
| AdminJson.GetInt | server/ServerAdmin/AdminWire.h:125-134 | reads the number there |
| AdminJson.AfterInside | server/ServerAdmin/AdminWire.h:40-94 | inside an escaped value the quoted key occurs only when the value ends in a quote and the key |
| AdminJson.ReadsLookup | server/ServerAdmin/AdminWire.h:82-134 | for any fields and any alphanumeric key, get_string and get_int return the value of the field that Lookup names: the first with the key, or the one behind an earlier value that shadows it |
| AdminJson.FieldIsFoundIff | server/ServerAdmin/AdminWire.h:82-94 | with distinct keys a field is found under its key iff no value more than one field before it equals the key or ends in a quote followed by the key |
| IniDocs.IniIEquals | src/platform/ini_doc.h:32-50 | equality up to ASCII case |
| IniDocs.LoadedIsConsistent | src/platform/ini_doc.h:131-167 | loading makes every line the parse of its own text under the running section |
| IniDocs.PairReadsBackIff | src/platform/ini_doc.h:287-294 | a written pair reads back as itself iff it is free of line breaks, edge blanks, a comment start, an equals sign in the key and a header shape |
| IniDocs.SetKeeps | src/platform/ini_doc.h:238-250 | set keeps every line the parse of its own text |
| IniDocs.DelKeyKeeps | src/platform/ini_doc.h:252-264 | so does del_key |
| IniDocs.DelSectionKeeps | src/platform/ini_doc.h:266-282 | so does del_section |
| IniDocs.GetAfterSet | src/platform/ini_doc.h:226-250 | after set the pair reads as the value in any letter case, every other pair as before |
| IniDocs.GetAfterDelKey | src/platform/ini_doc.h:252-264 | after del_key the pair reads as its default, every other as before |
| IniDocs.GetAfterDelSection | src/platform/ini_doc.h:266-282 | after del_section the section reads as its defaults, but for lines before the first header when it has no name |
| IniDocs.SaveThenLoad | src/platform/ini_doc.h:131-202 | saving and loading changes no value read |
| IniNames.SaveThenNames | src/platform/ini_doc.h:131-224 | saving and loading changes no section name nor their order |
| IniNames.NamesWithoutSection | src/platform/ini_doc.h:266-282 | del_section takes exactly its name, in any case, off the list and leaves the others in order |
| IniNames.NamesAfterSet | src/platform/ini_doc.h:287-335 | a set adds its section to the names at the end, unless it is there in some letter case |
| IniPuts.PutReads | Config.cpp:169-187 | load, set, save: the pair then reads as the value without blanks at its ends, every other pair as before |
| IniPuts.PutNames | Config.cpp:169-187 | load, set, save: the names are the old ones, and the section's at the end if no header had it in any case |
| IniPuts.DroppedNames | Config.cpp:190-196 | load, delete a section, save: exactly its name leaves the list |
| IniDocs.IniDoc.Load | src/platform/ini_doc.h:131-167 | the lines of the text, parsed |
| IniDocs.IniDoc.Save | src/platform/ini_doc.h:169-176 | the lines joined again |
| IniDocs.IniDoc.Sections | src/platform/ini_doc.h:204-224 | every declared name once, up to case |
| IniDocs.IniDoc.GetValue | src/platform/ini_doc.h:226-236 | the value of the first line that holds the pair |
| IniDocs.IniDoc.SetValue | src/platform/ini_doc.h:238-250 | rewrites that line, or inserts one |
| IniDocs.IniDoc.InsertKv | src/platform/ini_doc.h:287-335 | behind the last line of the last section of that name, or in a new section |
| IniDocs.IniDoc.DelKey | src/platform/ini_doc.h:252-264 | all lines that hold the pair go |
| IniDocs.IniDoc.DelSection | src/platform/ini_doc.h:266-282 | all lines from such a header to the next go |
| ServerCounting.NumbersRise | server/UDP/UDP.cpp:731-748 | over any run in which a session stays, the frames its peer gets carry rising numbers below the re-key limit, whatever other sessions do; on a stream with fewer than 2^32 events |
| ServerCounting.RunWindow | server/UDP/Session.h:35-88 | over any run from a blank window, through any restart, the window is that of all numbers of frames that opened under the session's key |
| ServerCounting.LifeCounts | server/UDP/UDP.cpp:731-748 | both, from the admission of a session on |
| ServerCounting.DatagramsStayLow | server/UDP/UDP.cpp:731-748 | on every run from a start no datagram session passes the re-key limit |
| ServerCounting.NumbersRepeat | server/UDP/UDP.cpp:731-748 | the bound is needed: a stream session that is asked to drop and not closed sends the same number again under the same key after 2^32 |
| ServerCounting.LimiterIsSound | server/UDP/UDP.cpp:417-461 | at every moment of every run the limiter's table is sound, which its operations require |
| ClientRuns.ClientNumbersRise | src/UDP.cpp:303-320 | over any run of a connection all frames a client sends, clear or sealed, carry rising numbers below the re-key limit, with fewer than 2^32 sends |
| ClientRuns.ClientWindow | src/UDP.cpp:808-880 | over any run of a connection the window is that of all numbers of frames that opened under its key |
| ClientRuns.DownlinkNoneRefused | server/UDP/UDP.cpp:728-751 | server to client, in order, in any run of both ends: the frame that opens next is not refused by the client's window |
| ClientRuns.UplinkNoneRefused | server/UDP/UDP.cpp:1108-1147 | client to server, likewise at the session's window, whatever other sessions do |
| ConfigServers.SortedIsPermutation | Config.cpp:386-388 | ascending by section number, and exactly the servers found |
| ConfigServers.ConfigFile.IniSetStr | Config.cpp:169-175 | load, set, save: the file then holds the edited document |
| ConfigServers.ConfigFile.IniDelSection | Config.cpp:190-196 | load, delete, save: likewise |
| ConfigServers.ConfigFile.CollectServers | Config.cpp:341-383 | the scan over all section names |
| ConfigServers.ConfigFile.OutOfStep | Config.cpp:391-407 | count and numbering checked |
| ConfigServers.ConfigFile.WriteServers | Config.cpp:423-435 | the rewriting loop, every key through the file |
| ConfigServers.ConfigFile.Load | Config.cpp:336-440 | collect, sort, compare, renumber through the file if out of step, as specified; else the file is untouched |
| ConfigRenumbers.EntryReads | Config.cpp:352-380 | an entry whose eight keys stand in a section is read back trimmed and stripped once more, whatever the defaults are |
| ConfigRenumbers.LastingIff | Config.cpp:78-85 | one more trim and strip leaves an entry as it is iff no text field has blanks or a pair of quotes at its ends |
| ConfigRenumbers.SectionsDiffer | Config.cpp:425 | ServerJ and ServerK are different names unless J is K |
| ConfigRenumbers.RestNames | Config.cpp:413-421 | the deletions leave exactly the names that are not numbered, among them numbered ones in other letter case |
| ConfigRenumbers.RenumberedStands | Config.cpp:423-435 | after the rewriting every entry stands in its own section |
| ConfigRenumbers.RewriteLeaves | Config.cpp:410-437 | after a rewrite: the names left, then Server1 to ServerM but for those a header spells in other letter case; every entry in place; the count |
| ConfigRenumbers.FoundAgain | Config.cpp:336-440 | what the load after a rewrite collects: the entries whose section is spelled as the program spells it, read once more |
| ConfigRenumbers.SettlesIff | Config.cpp:336-440 | for every consistent document: the next load returns the same list and writes nothing iff the file is in step, or no header spells the number of a server in other letter case and no collected text has blanks or quotes at its ends |
| ConfigRenumbers.SettlesForAll | Config.cpp:336-440 | and then it does so whatever the defaults are |
| ConfigRenumbers.ShadowedStays | Config.cpp:410-437 | a rewrite leaves headers in other letter case as they are |
| ConfigRenumbers.LosesOneEachLoad | Config.cpp:410-437 | when the first section alone is spelled in other letter case, every load loses the first server of the list, down to none |
| ConfigExamples.LowerCaseLosesAll | Config.cpp:410-437 | servers a, b, c under [server1], [Server2], [Server3] and Count=9: successive loads give b and c, then c, then none |
| ConfigExamples.QuotesAreLost | Config.cpp:78-85 | an address in two pairs of quotes is read with one pair by the first load and with none by the next |
| ServerRuns.CachedReplyOnEveryRun | server/UDP/UDP.cpp:1297-1325 | a cached ServerHello is nonce_s, dh_srv_pub and the signature over the session's current nonce_c, nonce_s and dh_srv_pub |
| ServerHandshake.OwnNonceRestarts | server/UDP/UDP.cpp:1333-1371 | the other half in full: a granted repeat of the own nonce at stage KEYS ends in the first stage with the keys gone |
| AdminJson.ShadowExample | server/ServerAdmin/AdminWire.h:82-134 | a concrete object in which a value hides a later key |
| ConfigReadings.TransportIff | Config.cpp:359-380 | for every document and section: TCP iff the value, blanks and one pair of quotes aside, is 1, tcp, true or yes in any letter case; else UDP |
| ConfigReadings.TextFields | Config.cpp:352-358 | each text field is that of its own key; where the key is missing client id and token are those of the identity section, name, address and public key empty |
| ConfigReadings.NumberFields | Config.cpp:352-358 | port and managed flag are the numbers that stand there, or 51820 and unmanaged |
| ConfigReadings.MissingKeys | Config.cpp:352-380 | a section with nothing but an address, field by field |
| ConfigReadings.FoundIff | Config.cpp:341-388 | the list holds the servers of exactly the sections named Server and digits worth a positive int that have an address, each once |
| ConfigReadings.RewritesIff | Config.cpp:390-407 | the file is rewritten unless the count is the number of servers found and they are numbered 1, 2 and so on |
| ServerProgress.AdmittedIff | server/UDP/UDP.cpp:153-227 | a new source is let in iff fewer than 32 handshakes are pending, its address has fewer than 8 sessions or one unauthenticated to evict, and a place is left; its session is blank |
| ServerProgress.HelloIsAnswered | server/UDP/UDP.cpp:1285-1383 | a first hello with a token left is answered by nonce_s and a new key signed with nonce_c, and the session holds exactly these |
| ServerProgress.HelloIsRepeated | server/UDP/UDP.cpp:1300-1325 | a retransmitted hello is answered again with the same signed values |
| ServerProgress.KeysIff | server/UDP/UDP.cpp:1385-1441 | a session without keys gets them iff a client key arrives while it holds its private key and the agreement succeeds: both keys over both public keys and both nonces, stage KEYS, private key gone |
| ServerProgress.LoginIff | server/UDP/UDP.cpp:1456-1688 | a login is made iff a sealed message that opens and is in the window holds for this handshake, the register admits it, the service does not refuse and an address is free for it; then the session is logged in at it, routed to and told address and prefix; else it is told reason 0, 1 or 2, case by case |
| ServerProgress.AllocationIff | server/UDP/UDP.cpp:279-356 | an address is given iff the client's leased one is free or any is, and is the client's lease from then on |
| ServerProgress.AddressGiven | server/UDP/UDP.cpp:279-356 | the leased one if free, else the one the id hashes to if free and nobody else's lease |
| ServerProgress.IdentityIsRepeated | server/UDP/UDP.cpp:1456-1475 | a logged-in session that repeats its identity is told its address again |
| ServerProgress.UplinkIff | server/UDP/UDP.cpp:1153-1224 | the packets let into the tunnel grow by exactly the session's own iff the frame opens, is in the window, the session is logged in, the source is its address, and it is neither cut nor dropped |
| ServerProgress.OtherPackets | server/UDP/UDP.cpp:1153-1224 | a packet cut off ends its session; one from another address or before the login changes only the window |
| ServerProgress.DownlinkIff | server/UDP/UDP.cpp:627-657 | a packet for the tunnel becomes one data frame under the key of the session that holds its destination, and nothing when nobody does |
| ServerProgress.HeartbeatGoesOut | server/UDP/UDP.cpp:1691-1789 | a due heartbeat goes to a logged-in session |
| ServerProgress.HeartbeatIsAnswered | server/UDP/UDP.cpp:1225-1227 | a heartbeat heard is answered |
| ServerProgress.GoodbyeEnds | server/UDP/UDP.cpp:1237-1247 | a goodbye heard ends a datagram session and asks a stream session off its connection |
| ServerProgress.NothingGoesOut | server/UDP/UDP.cpp:731-831 | at the re-key limit, or when the socket refuses, nothing goes out and the session ends or is asked to drop |
| ClientProgress.Greets | src/UDP.cpp:549-569 | a client that waits for a ServerHello sends its nonce |
| ClientProgress.HelloIff | src/UDP.cpp:944-985 | a ServerHello counts as good iff the known key signed it over the client's nonce and the values it brings |
| ClientProgress.Derives | src/UDP.cpp:578-620 | after a good one the client sends its key and holds both session keys over both public keys and nonces |
| ClientProgress.Identifies | src/UDP.cpp:622-633 | and sends its signed identity, sealed |
| ClientProgress.Repeats | src/UDP.cpp:641-658 | in the identity phase both are sent once more |
| ClientProgress.OnlineIff | src/UDP.cpp:661-686 | the identity phase ends online iff the client was let in, and stops iff it was refused or must reconnect |
| ClientProgress.ReceivedIff | src/UDP.cpp:880-900 | exactly the packets of data frames that open and are in the window reach the tunnel device |
| ClientProgress.VerdictIs | src/UDP.cpp:880-944 | let in, refused or sent off exactly by the frame that says so; a heartbeat is answered |
| ClientProgress.Transmits | src/UDP.cpp:688-742 | online, packets go out as data frames and heartbeats when due |
| ClientProgress.SaysGoodbye | src/UDP.cpp:743-747 | an orderly stop says goodbye, sealed |
| Handshake.Completes | src/UDP.cpp:535-686 | from every world with a sound server that has room, a token for the source, the identity on its register and an address to give, the eleven happenings of the handshake may follow one another and end with the client online and the session logged in, at one address and under the same keys |
| Handshake.HandshakeCompletes | server/UDP/UDP.cpp:1285-1688 | so every execution that reaches such a world goes on to one |
| Handshake.FreshServerMeets | server/UDP/UDP.cpp:1285-1688 | a registered client and a server that has just started are such a world |
| Handshake.PacketGoesUp | src/UDP.cpp:688-742 | a packet from the client's own address enters the server's tunnel device |
| Handshake.PacketComesDown | server/UDP/UDP.cpp:627-657 | a packet for that address reaches the client's |
| Handshake.HeartbeatComesBack | src/UDP.cpp:688-742 | a client's heartbeat is answered |
| Handshake.LeavingEnds | src/UDP.cpp:743-747 | a client that leaves is gone from the table, or asked off its connection |

## Left out

- OpenSSL, key files and randomness: cryptography is symbolic; nonces, ephemeral keys and random draws are inputs, ephemeral keys never repeating.
- Sockets, epoll, TUN devices and threads: reads and writes have arbitrary results; a handler or locked section is one step, so interleavings inside a handler are not modelled.
- Clocks: times are inputs; the heartbeat's timeouts appear as release at any moment (server/UDP/UDP.cpp:1691-1789).
- Traffic quotas and block lists: whether they refuse a login, drop a packet or cut a session is an input. The quota is no hard cap in the code, since the heartbeat drains the byte count without raising its base (server/UDP/UDP.cpp:1713-1715), and none is claimed.
- Order of table iteration: which of several equally old sessions is evicted, and the order of kicks, are free choices; the result of the kicks does not depend on it.
- htonl and ntohl on addresses: they rename addresses and are left out, so addresses are in host order throughout.
- Token counts are reals, not doubles.
- The lease file: leases are a map at the start of a run; the file's lines, and rewriting it, are not part of this model.
- stop() and restart of a running server (server/UDP/UDP.cpp:558-584).
- Bounded packet queues in front of send_work and the TUN device.
- UdpServers.UdpServer.HandleFramed: the heartbeat thread and forwarding of downlink data are events of ServerRuns and not methods of the class, because each is one send on a session the table yields.
- UdpServers.PeerSession.Retire: a released session object can still be reached by a TCP connection for a moment; what is proved of it is that it ignores every frame, not when it is freed.
- Agreement.ClientAgrees: there is one server identity; a client that trusts another key than this server's is outside the claim. Outsiders hold ephemeral and identity keys of their own; a client's or the server's private key is never theirs.
- ServerLeases.OneAddressPerId: a login counts as calm under conditions on the state before it: no other key logged in under its client id, at most 10000 leases, and not the random tier; outside them the address can change.
- CidrText.WritePrefixes: the header comment lines of the output file and the parsing of the input lines by Python's ipaddress are not part of this model.
- IniDocs.SaveThenLoad: text is what the file decodes to; byte order marks and UTF-16 are not part of this model.
- DomainExtract.ClientHelloNamed: the hello must lie in one segment and name a host first in its server_name list; hellos split over segments are not reassembled by the code.
- AdminJson.ReadsLookup: keys are alphanumeric, as all keys of the channel are.
- ServerCounting.NumbersRise: on a stream fewer than 2^32 events may be to come, every event counted as a send; ServerCounting.NumbersRepeat shows that some bound is needed.
- ClientRuns.ClientNumbersRise: fewer than 2^32 sends, every happening counted as two; a connection that reached the re-key limit sends nothing any more but goes on numbering its answers to heartbeats.
- ClientRuns.UplinkNoneRefused: that a stream hands over frames in their order is TcpTunnel's result about bytes; here it is the hypothesis that the arrivals are some of the frames sent, in their order.
- ClientSpec.HandleInner: an identity_ok shorter than five bytes, which the server never sends, would authenticate without an address; the model's identity_ok always carries one.
- ConfigServers.ConfigFile.CollectServers: two sections with one number keep their order here, where std::sort may swap them.
- ConfigServers.ConfigFile.Load: the fields outside the server list, and the fallback entry when the list is empty (Config.cpp:442-468), are not part of this model; the defaults, which come from the same file, are an input.
- Windows branches, the Qt interface, the updater, the service client, Android scripts, SQLite statements and the HTTP administration servers.
