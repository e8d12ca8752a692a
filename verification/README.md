# Verification of the VPN and its address allocators

A Dafny model of the VPN under `VPN/` (server, enclave process and client), of the
configuration file that the web service prints and the client parses, and of the address
allocator for virtual machines, with proofs about every execution of them.

**The session protocol.** The server keeps a table of 254 clients and the enclave, behind a
socket, a table of 256 session keys. `Session` gives one step of the server's event loop over
both tables (CONNECT, DATA, PING, DISCONNECT, a TUN packet, an idle second) and runs of any
length, with a history recorded beside the state. The link between the tables is a
conservation law per VPN address (`Ledger`); from it follow when a key can be missing, how
much surplus the key table can take (`Capacity`), and, with the law of the address counter
(`Allocation`), that a client and the enclave hold the same key (`Agreement`) and that every
packet crosses the tunnel unchanged (`Tunnel`). `Activity` says exactly who is evicted;
`Keepalive`, `Liveness` and `EvictionBound` join the client's timers to the server's sweeps, with
exact bounds, and `Heartbeat` both directions at once; `Removal` says exactly whose entry goes
when one is removed by address. `Wraparound` builds the run of 255 allocations that shows 254 to
be the exact bound of all that. `ClientLoop` is the client's main loop as a machine. `Outcomes`
says of every step, and `ConfigSettings` of every line of a configuration file, exactly what it
does, in terms of bytes, tables and primitives alone.

**Programs.** `KeyManager`, `ClientManager`, `EnclaveProcess`, `VpnServer`, `VpnClient`,
`ConfigLoader` and `VmService` are the same code in its imperative form: slot arrays, counters
and fixed buffers changed in place. Each method is proved equal to the function of the model
it implements, and `VpnServer.Server.EventLoop` ties the server program to the runs, so the
theorems about runs hold of it. Array bounds of the buffers are part of these proofs.

**Conventions.** A VPN address is the host-order number; in memory and on the wire it is its
four big-endian bytes, as `htonl` stores it. Clock readings, nonces, session ids, results of
sends and contents of uninitialised buffers are inputs. The cryptographic primitives are a
record of functions, `Crypto.Suite`; `Crypto.Lawful` states what is assumed of them:
commutative Diffie-Hellman (section 6.1 of RFC 7748) and an authenticated cipher that opens
what it sealed and adds a 16-byte tag (section 2.8 of RFC 8439). The socket to the enclave is
reliable and carries whole messages, execution is serial, and one clock serves both machines.

**Where code and documentation differ**, the model follows the code:
the client range ends at 10.8.0.255, not 10.8.0.254 (`Allocation.DocumentedRangeIff`,
`Wraparound.LastAddressGiven`);
any `max_reconnect_attempts` of 1 or more acts like 1 and the backoff never doubles, because the
program's loop leaves on the first failed reconnection (`ClientLoop.LimitIrrelevant`,
`ClientLoop.AlwaysFirst`, which hold of the program by `VpnClient.Client.MainLoop`);
the allocator for virtual machines hands out 10.8.0.9 to 10.8.0.99, whatever its comments and
configured range say. Some properties one would expect fail, and the exact condition is proved
in their place: a repeated CONNECT does not always switch to its own key
(`Agreement.StaleKey`, `Agreement.AnsweredConnectAgreesIff`), and not every user name survives
the configuration file (`ConfigRoundTrip.NameSurvivesIff`) or the copies after it
(`ConfigRoundTrip.NameReachesClientIff`, `Wire.NameSentIff`). And since addresses wrap around, a
DISCONNECT may free another client's entry (`Wraparound.LeaverStays`): exactly when is
`Removal.LeaveFreesIff`. A newline in a user name can change the server address
(`ConfigRoundTrip.AddressReplaced`).

## Model

| member | source | states |
|---|---|---|
| `Ledger.RunBalances` | VPN/src/server/vpn_server.c:61-187 | Over every run whatever, address by address: active keys plus dropped keys equal active clients plus the surplus of re-CONNECTs, rollbacks of known clients and timeouts; both tables keep their invariants (count equals active slots, peer addresses distinct, free key slots zeroed) |
| `Ledger.ConnectBalances` | VPN/src/server/vpn_server.c:67-91 | An accepted CONNECT, fresh or repeated, rolled back or not, with the key table full or not, keeps the books balanced |
| `Ledger.LeaveBalances` | VPN/src/server/vpn_server.c:177-187 | A DISCONNECT takes one client and one key of its address, or else settles a dropped key |
| `Ledger.RestBalances` | VPN/src/server/vpn_server.c:408-414 | A sweep moves every evicted address into the surplus |
| `Ledger.CoverIff` | VPN/src/server/vpn_server.c:67-91 | Every address has at least as many keys as clients if and only if no more keys were dropped for it than the surplus makes up for |
| `Ledger.RoomyDropsNothing` | VPN/src/enclave/key_manager.c:45-58 | If no accepted CONNECT of a run met a full key table, no key was dropped |
| `Ledger.KeysCoverClients` | VPN/src/server/vpn_server.c:61-187 | In every such run the client addresses are included, with multiplicity, in the key addresses |
| `Ledger.KeyAlwaysFound` | VPN/src/enclave/enclave_main.c:177-212 | In every such run no further step of any kind reaches the "Key not found" answer |
| `Ledger.SmallSurplusIsRoomy` | VPN/include/key_manager.h:8 | A run whose surplus is at most 2 never met a full key table at an accepted CONNECT |
| `Ledger.Conservation` | VPN/src/server/vpn_server.c:67-91 | In every run: key count + dropped = client count + re-CONNECTs + rollbacks of known clients + timeouts |
| `Ledger.ResponseNamesEntry` | VPN/src/server/vpn_server.c:110-121 | In every run the unchecked lookup after a handshake finds its client, and CONNECT_RESP carries that entry's address and session id and the server's public key |
| `Capacity.TwoAreServed` | VPN/include/client_manager.h:14 | With a surplus of at most 2 no packet of a known client misses its key |
| `Capacity.ThreeAreNot` | VPN/include/key_manager.h:8 | A run with a surplus of 3 ends with a CONNECT that is entered and answered, and whose DATA of up to 4096 bytes then finds no key |
| `Allocation.RunNumbered` | VPN/src/server/client_manager.c:55-87 | In every run each active entry holds 10.8.0.2 plus its allocation number modulo 254, and allocation numbers are pairwise different |
| `Allocation.FreshAddress` | VPN/src/server/client_manager.c:55-62 | The k-th fresh allocation of any run gets 10.8.0.2 + (k mod 254) |
| `Allocation.DocumentedRangeIff` | VPN/src/server/client_manager.c:54-60 | A fresh address lies in the documented range 10.8.0.2 to 10.8.0.254 if and only if its number modulo 254 is not 253; otherwise it is 10.8.0.255 |
| `Wraparound.LastAddressGiven` | VPN/src/server/client_manager.c:54-60 | A run reaches a state in which the next fresh client is given 10.8.0.255 |
| `Allocation.SharedIff` | VPN/src/server/client_manager.c:55-87 | Two active clients share a VPN address if and only if their (different) allocation numbers agree modulo 254 |
| `Allocation.OneToOne` | VPN/src/server/client_manager.c:40-93 | Within 254 fresh allocations peers and VPN addresses of the active entries determine each other |
| `Wraparound.OneToOneExact` | VPN/src/server/client_manager.c:40-93 | Peers and VPN addresses determine each other over all runs of up to n fresh allocations if and only if n is at most 254 |
| `Activity.RunStamped` | VPN/src/server/client_manager.c:130-151 | In every run last_seen of an active entry is the time of its latest accepted CONNECT, DATA, PING or successful send |
| `Activity.EvictionExact` | VPN/src/server/vpn_server.c:408-414 | After any run an idle step that is due keeps a client if and only if its last activity is at most 300 seconds old, one that is not due keeps all, and nothing but active flags changes |
| `Activity.IdleAfterSweep` | VPN/src/server/vpn_server.c:410-414 | Within 30 seconds of a sweep idle steps change nothing |
| `Crypto.LawsAreConsistent` | VPN/src/enclave/crypto.c:19-98 | The laws assumed of the primitives have a model, one in which two key pairs give different session keys |
| `Agreement.RunKeyPair` | VPN/src/enclave/key_manager.c:11-32 | The server key pair never changes during a run |
| `Agreement.RunOwned` | VPN/src/enclave/key_manager.c:104-153 | With at most 254 fresh allocations and one public key per peer, every stored key is the session key of the one peer its address was given to |
| `Agreement.KeyAgreement` | VPN/src/client/vpn_client.c:185-212 | In such a run of at most 254 fresh allocations the key looked up for an active client is the key the client derived if and only if no more keys of its address were dropped than the surplus makes up for |
| `Wraparound.SharedReached` | VPN/src/server/client_manager.c:54-87 | After one client that stays and 253 that come and go, the next is given the address of the first: two active entries under one address, with nothing dropped and no surplus |
| `Wraparound.SharedMixesUp` | VPN/src/server/vpn_server.c:177-187 | In that state the enclave finds the first client's key for the newcomer, packets for the newcomer are routed to the first, and the newcomer's DISCONNECT removes the first and leaves the newcomer |
| `Wraparound.AgreementExact` | VPN/src/enclave/key_manager.c:45-80 | With two key pairs the server tells apart: enclave and clients agree over all runs of up to n fresh allocations, even without drops and surplus, if and only if n is at most 254 |
| `Agreement.AnsweredConnectAgreesIff` | VPN/src/enclave/key_manager.c:45-80 | In any state, full key table or not, after an answered CONNECT the lookup gives this handshake's key if and only if its key took a slot below every slot of that address or the key found before was the same |
| `Agreement.StaleKey` | VPN/src/enclave/key_manager.c:45-80 | A peer that connects again with another key pair is answered while the enclave keeps using the first key |
| `KeyTable.InitValid` | VPN/src/enclave/key_manager.c:11-19 | An empty key table satisfies the invariant |
| `KeyTable.FreeSlot` | VPN/src/enclave/key_manager.c:47-53 | The least inactive slot, or the table size |
| `KeyTable.SlotOf` | VPN/src/enclave/key_manager.c:74-78 | The least active slot of an address, or the table size |
| `KeyTable.FullIff` | VPN/src/enclave/key_manager.c:55-58 | No slot is free if and only if the count is 256 |
| `KeyTable.AddKeyKeeps` | VPN/src/enclave/key_manager.c:45-70 | add_key keeps the invariant and adds exactly its address, unless the table is full |
| `KeyTable.RemoveKeyKeeps` | VPN/src/enclave/key_manager.c:83-96 | remove_key keeps the invariant, zeroing included, and takes away one occurrence of the address, if there is one |
| `KeyTable.FoundIff` | VPN/src/enclave/key_manager.c:73-80 | A lookup succeeds if and only if the address has an active key |
| `KeyTable.LookupAfterAdd` | VPN/src/enclave/key_manager.c:45-80 | After add_key other addresses look up as before; the new key is returned if and only if its slot lies below every slot of the address or the old key was equal |
| `KeyTable.LookupAfterRemove` | VPN/src/enclave/key_manager.c:83-96 | remove_key changes no lookup of another address |
| `KeyTable.RemoveUncovers` | VPN/src/enclave/key_manager.c:73-96 | Removing the lowest key of an address uncovers the next one, or none |
| `KeyTable.AddRefinesMap` | VPN/src/enclave/key_manager.c:45-80 | On an address without a key add_key is insertion into a finite map |
| `KeyTable.RemoveRefinesMap` | VPN/src/enclave/key_manager.c:83-96 | On an address with at most one key remove_key is deletion from a finite map |
| `KeyManager.Manager.constructor` | VPN/src/enclave/key_manager.c:11-32 | Builds the empty table with the key pair |
| `KeyManager.Manager.AddKey` | VPN/src/enclave/key_manager.c:45-70 | In place: the new table is AddKey of the old, and the result reports whether there was room |
| `KeyManager.Manager.GetKey` | VPN/src/enclave/key_manager.c:73-80 | Returns the key of the lowest slot of the address, or nothing |
| `KeyManager.Manager.RemoveKey` | VPN/src/enclave/key_manager.c:83-96 | In place: the new table is RemoveKey of the old |
| `KeyManager.Manager.PerformHandshake` | VPN/src/enclave/key_manager.c:104-153 | In place: derives the session key, stores it if there is room, fails exactly when ECDH does |
| `ClientTable.InitValid` | VPN/src/server/client_manager.c:10-24 | An empty client table satisfies the invariant |
| `ClientTable.FreeSlot` | VPN/src/server/client_manager.c:64-71 | The least inactive slot, or the table size |
| `ClientTable.SlotOfIp` | VPN/src/server/client_manager.c:96-103 | The least active slot with a VPN address, or the table size |
| `ClientTable.SlotOfAddr` | VPN/src/server/client_manager.c:106-115 | The least active slot with a peer address, or the table size |
| `ClientTable.RoomIff` | VPN/src/server/client_manager.c:73-76 | A slot is free if and only if the count is below 254, so "No available slot" is never reached |
| `ClientTable.TouchKeeps` | VPN/src/server/client_manager.c:149-151 | Refreshing an entry keeps the invariant and every address |
| `ClientTable.AddClientKeeps` | VPN/src/server/client_manager.c:40-93 | add_client refuses if and only if the count is 254; otherwise the peer is entered, seen now, under the returned address, and a known peer changes no address |
| `ClientTable.AddClientKnows` | VPN/src/server/client_manager.c:40-93 | add_client makes its own peer known and nobody else, and counts a fresh one |
| `ClientTable.AddClientExact` | VPN/src/server/client_manager.c:40-93 | add_client changes one entry at most: the known peer's clock, or the lowest free slot |
| `ClientTable.RemoveClientExact` | VPN/src/server/client_manager.c:118-127 | remove_client frees the lowest slot of the address and changes no other entry |
| `ClientTable.RemoveClientKeeps` | VPN/src/server/client_manager.c:118-127 | remove_client keeps the invariant and takes away one occurrence of the address, if there is one |
| `ClientTable.SweepExact` | VPN/src/server/client_manager.c:130-146 | A sweep deactivates exactly the clients silent for more than 300 seconds, lowers the count by their number and changes nothing else |
| `ClientManager.Manager.constructor` | VPN/src/server/client_manager.c:10-24 | Builds the empty table with the first address 10.8.0.2 |
| `ClientManager.Manager.FindByVpnIp` | VPN/src/server/client_manager.c:96-103 | Finds the lowest active slot of a VPN address |
| `ClientManager.Manager.FindByAddr` | VPN/src/server/client_manager.c:106-115 | Finds the lowest active slot of a peer |
| `ClientManager.Manager.FindFree` | VPN/src/server/client_manager.c:64-71 | Finds the lowest free slot |
| `ClientManager.Manager.AddClient` | VPN/src/server/client_manager.c:40-93 | In place: table and result are AddClient of the old table |
| `ClientManager.Manager.Enter` | VPN/src/server/client_manager.c:54-92 | In place: enters a fresh peer under the next address |
| `ClientManager.Manager.RemoveClient` | VPN/src/server/client_manager.c:118-127 | In place: the new table is RemoveClient of the old |
| `ClientManager.Manager.CheckTimeouts` | VPN/src/server/client_manager.c:130-146 | In place: the loop's result is the sweep of the old table |
| `ClientManager.Manager.UpdateActivity` | VPN/src/server/client_manager.c:149-151 | In place: refreshes one entry |
| `Bytes.FromToBe` | VPN/src/common/protocol.c:34-41 | Reading a big-endian field gives back the number modulo the field's width |
| `Outcomes.BigEndian` | VPN/src/common/protocol.c:34-41 | Byte i of a k-byte field is the value divided by 256 to the k-1-i, modulo 256 |
| `Ipc.TakeEncodedRequest` | VPN/src/common/ipc_protocol.c:25-35 | An encoded request followed by anything is read back whole, leaving exactly what followed |
| `Ipc.TakeRequestIff` | VPN/src/enclave/enclave_main.c:105-128 | A request is taken off a stream exactly when the stream starts with its encoding |
| `Ipc.TakeRequestShort` | VPN/src/enclave/enclave_main.c:105-128 | Otherwise a short header stays on the stream and a short body is lost |
| `Ipc.RequestBytes` | VPN/include/ipc_protocol.h:28-36 | Offsets and byte order of a request |
| `Ipc.TakeEncodedResponse` | VPN/src/server/enclave_client.c:61-81 | The same for responses |
| `Ipc.TakeResponseIs` | VPN/src/server/enclave_client.c:60-87 | A response is whole when its announced bytes are there, and good exactly when its status is 0 |
| `Ipc.ResponseBytes` | VPN/include/ipc_protocol.h:39-46 | Offsets, status and byte order of a response |
| `Ipc.DispatchFits` | VPN/src/enclave/enclave_main.c:137-280 | Every response carries its request's id and fits the 4096-byte buffer |
| `Ipc.DispatchOutcome` | VPN/src/enclave/enclave_main.c:144-277 | Which commands, by code, succeed, what they return and what they do to the key table, in terms of the primitives and the table alone; every other code fails and changes nothing |
| `Ipc.ServeIsPerform` | VPN/src/enclave/enclave_main.c:363-378 | The serving loop over back-to-back requests equals dispatching them in order up to the first SHUTDOWN, and leaves the rest of the stream untouched |
| `Ipc.PerformAnswers` | VPN/src/enclave/enclave_main.c:137-280 | One response per served request, with its id and within bounds; service ends exactly with the list or with the first SHUTDOWN, which is answered |
| `Ipc.Framing` | VPN/src/enclave/enclave_main.c:105-141 | From the bytes of any list of fitting requests the loop recovers exactly them, and the bytes it sends parse into one response each with the same id |
| `Ipc.CallIsDispatch` | VPN/src/server/enclave_client.c:51-90 | A call through encoded request and response is the dispatched command |
| `Ipc.EncryptCall` | VPN/src/server/enclave_client.c:199-227 | Through the bytes: nonce, then the plaintext sealed with it under the key on file, or nothing without one; no key changes |
| `Ipc.DecryptCall` | VPN/src/server/enclave_client.c:230-258 | Through the bytes: what opens under the key on file, nothing without a key, below 28 bytes or when the tag is wrong; no key changes |
| `Ipc.HandshakeCall` | VPN/src/server/enclave_client.c:162-196 | Through the bytes: the key derived by Diffie-Hellman and the KDF is stored if there is room and comes back behind the server's public key, unless Diffie-Hellman refuses |
| `Ipc.AddKeyCall` | VPN/src/server/enclave_client.c:112-137 | enclave_add_key amounts to add_key, and is refused exactly for another key size or a full table |
| `Ipc.RemoveKeyCall` | VPN/src/server/enclave_client.c:140-159 | enclave_remove_key amounts to remove_key |
| `EnclaveProcess.Copy` | VPN/src/enclave/enclave_main.c:191 | memcpy into a buffer: the range holds the source, the rest is untouched |
| `EnclaveProcess.Process.HandleIpcRequest` | VPN/src/enclave/enclave_main.c:105-282 | In its two buffers, without leaving them: reads one request, executes it, and sends the encoded response |
| `EnclaveProcess.Process.Execute` | VPN/src/enclave/enclave_main.c:144-277 | The switch fills the response buffer with the response of the command and updates the key table and the running flag |
| `EnclaveProcess.Process.ServeAll` | VPN/src/enclave/enclave_main.c:363-378 | The inner loop of the enclave is the serving loop of the model |
| `EnclaveProcess.Process.ServeRequests` | VPN/src/enclave/enclave_main.c:363-378 | The program, given the bytes of any requests back to back, ends with the keys of the requests dispatched in order and sends bytes that parse into one response per request served, each with its id; service ends exactly with the list or with the first SHUTDOWN |
| `Wire.HeaderRoundTrip` | VPN/src/common/protocol.c:34-41 | Type, version, length, sequence and timestamp of a header can be read back |
| `Outcomes.HeaderBytes` | VPN/src/common/protocol.c:34-41 | The 16 bytes of a header, one by one |
| `Outcomes.ConnectRequestBytes` | VPN/src/client/vpn_client.c:139-144 | The 80 bytes of a CONNECT_REQ |
| `Outcomes.DatagramBytes` | VPN/src/server/vpn_server.c:104-121 | The bytes of CONNECT_RESP, PONG and DATA |
| `Wire.ConnectRequestArrives` | VPN/src/client/vpn_client.c:139-144 | The server reads the client's public key out of its CONNECT_REQ whatever its buffer held |
| `Wire.HeadersArrive` | VPN/src/client/vpn_client.c:261-275 | A PING or DISCONNECT header is dispatched as such by the server, a PONG header by the client |
| `Wire.ResponseJoins` | VPN/src/client/vpn_client.c:173-212 | From CONNECT_RESP the client gets its address and session id (modulo their 32-bit fields), the server's key and the session key, or fails exactly when ECDH does |
| `Tunnel.UploadFitsIff` | VPN/src/client/vpn_client.c:386-419 | The client's buffers suffice if and only if the packet has at most 2004 bytes |
| `Tunnel.ForwardFitsIff` | VPN/src/server/vpn_server.c:195-268 | The server's buffers suffice for a routed packet if and only if it has at most 2004 bytes |
| `Outcomes.DataWritesIff` | VPN/src/server/vpn_server.c:128-161 | In any state a DATA packet is written to the TUN device if and only if its sender is entered, has a key on file and the packet, of 28 to 4096 bytes, opens under it; what is written is what opened |
| `Outcomes.DataRefreshes` | VPN/src/server/vpn_server.c:128-161 | Whatever DATA holds, its sender's entry is refreshed, nothing else changes and nothing else goes out |
| `Outcomes.PingRefreshes` | VPN/src/server/vpn_server.c:163-175 | A PING refreshes its sender's entry, changes nothing else and is answered |
| `Outcomes.LeaveOutcome` | VPN/src/server/vpn_server.c:177-187 | A DISCONNECT is not answered; of an entered peer exactly the lowest entry and the lowest key of its address go, of anyone else nothing |
| `Outcomes.ConnectOutcome` | VPN/src/server/vpn_server.c:61-126 | A CONNECT is answered if and only if fewer than 254 clients are entered and Diffie-Hellman accepts the key; entry, stored key and answer are spelled out, and so are both refusals |
| `Outcomes.ConnectAnsweredIff` | VPN/src/server/vpn_server.c:61-126 | The same after any run, with the server's own key pair |
| `Outcomes.TunOutcome` | VPN/src/server/vpn_server.c:195-281 | A TUN packet goes out if and only if it is IPv4, at most 2004 bytes, and the lowest active entry its destination field holds has a key; then to that entry's peer, behind the nonce and sealed with it; addressed to nobody it is dropped and nothing changes |
| `Outcomes.OverrunIff` | VPN/src/server/vpn_server.c:251-268 | The packet buffer overruns exactly for such packets of 2005 to 4096 bytes |
| `Outcomes.DatagramOutcome` | VPN/src/server/vpn_server.c:34-192 | Any datagram, by its bytes: when there is a PONG, a packet written, a CONNECT_RESP, and when nothing happens at all |
| `Outcomes.ReceivedBytes` | VPN/src/server/vpn_server.c:34-60 | The buffer holds the datagram over what was there before |
| `Outcomes.ClientOutcome` | VPN/src/client/vpn_client.c:329-384 | The client writes a packet if and only if it is DATA that opens under its key, and sees a PONG exactly for one |
| `Outcomes.JoinOutcome` | VPN/src/client/vpn_client.c:173-212 | The client joins if and only if the buffer holds a CONNECT_RESP with status 0 and an acceptable key; each field comes from its offset |
| `Outcomes.UploadBytes` | VPN/src/client/vpn_client.c:386-428 | The client's DATA datagram: header, nonce, packet sealed with that nonce |
| `Tunnel.UpRoundTrip` | VPN/src/server/vpn_server.c:128-160 | A packet read by an agreeing client is written unchanged by the server |
| `Tunnel.DownRoundTrip` | VPN/src/server/vpn_server.c:212-281 | A packet routed to a client is sent to it alone and written unchanged by it |
| `Tunnel.TunnelRoundTrip` | VPN/src/client/vpn_client.c:329-428 | After any run with kept key pairs and at most 254 fresh allocations, every packet of up to 2004 bytes crosses both ways unchanged under the key the client derived, if and only if no more keys of its address were dropped than the surplus makes up for |
| `Wraparound.TunnelExact` | VPN/src/server/vpn_server.c:195-281 | Packets cross over all runs of up to n fresh allocations, even without drops and surplus, if and only if n is at most 254 |
| `Tunnel.ConnectCompletes` | VPN/src/server/vpn_server.c:61-126 | After any run with fewer than 254 clients, every CONNECT whose key Diffie-Hellman accepts, first or repeated, is answered and, through the bytes both ways, gives the client its entered address and session id and the key derived from the handshake |
| `VpnServer.Server.constructor` | VPN/src/server/vpn_server.c:359-390 | Start-up state |
| `VpnServer.Server.SendIpcRequest` | VPN/src/server/enclave_client.c:51-90 | Through encoded bytes and the enclave process: the result and the new key table are those of the call |
| `VpnServer.Server.EnclaveHandshake` | VPN/src/server/enclave_client.c:162-196 | The key table after is that of the handshake; the server's public key comes back unless ECDH failed |
| `VpnServer.Server.EnclaveRemoveKey` | VPN/src/server/enclave_client.c:140-159 | The key table after is RemoveKey of the one before |
| `VpnServer.Server.EnclaveEncrypt` | VPN/src/server/enclave_client.c:199-227 | Returns what sealing under the key on file gives, and changes no key |
| `VpnServer.Server.EnclaveDecrypt` | VPN/src/server/enclave_client.c:230-258 | Returns what opening under the key on file gives, and changes no key |
| `VpnServer.Server.InitVpnHeader` | VPN/src/common/protocol.c:34-41 | Writes the header with the next sequence number and nothing beyond it |
| `VpnServer.Server.HandleConnect` | VPN/src/server/vpn_server.c:61-126 | Tables and answer are those of the CONNECT step |
| `VpnServer.Server.HandleData` | VPN/src/server/vpn_server.c:128-161 | Tables and TUN output are those of the DATA step |
| `VpnServer.Server.HandlePing` | VPN/src/server/vpn_server.c:163-175 | Tables and answer are those of the PING step |
| `VpnServer.Server.HandleDisconnect` | VPN/src/server/vpn_server.c:177-187 | Tables are those of the DISCONNECT step |
| `VpnServer.Server.HandleUdpToTun` | VPN/src/server/vpn_server.c:34-192 | Any datagram: tables and output are those of the step on the classified packet, and the bytes sent are that output with the next sequence number |
| `VpnServer.Server.HandleTunToUdp` | VPN/src/server/vpn_server.c:195-281 | Any TUN packet the buffers hold: tables, receiver and datagram are those of the step |
| `VpnServer.Server.Encapsulate` | VPN/src/server/vpn_server.c:263-268 | Header and ciphertext in a 2048-byte buffer, without leaving it |
| `VpnServer.Server.Send` | VPN/src/server/vpn_server.c:110-175 | An answer goes out as its datagram under the next sequence number; anything else sends nothing and keeps the number |
| `VpnServer.Server.OnIdle` | VPN/src/server/vpn_server.c:408-414 | The idle branch is the idle step |
| `VpnServer.Server.EventLoop` | VPN/src/server/vpn_server.c:387-434 | After any inputs whose run passes the end of no buffer, the program's tables are those of the run over their events, and turn by turn its outputs are those of the run, each datagram with its fields and consecutive sequence numbers |
| `VpnServer.RoutedNowhere` | VPN/src/server/vpn_server.c:195-281 | Such are all inputs whose TUN packets above 2004 bytes are routed to nobody |
| `VpnServer.SequenceCounts` | VPN/src/common/protocol.c:34-41 | Sequence numbers count the datagrams sent, modulo 2^32 |
| `Keepalive.PingRecent` | VPN/src/client/vpn_client.c:277-291 | The time since the last PING never exceeds the interval less one plus the longest pass |
| `Keepalive.LookBack` | VPN/src/client/vpn_client.c:277-291 | At any moment some PING, or the start, is no older than that gap plus D and was sent more than D ago or is the start |
| `Keepalive.LostIff` | VPN/src/client/vpn_client.c:277-291 | For any passes the link is lost if and only if some pass came more than the timeout after the last PONG before it |
| `Keepalive.LastPingIs` | VPN/src/client/vpn_client.c:262-275 | The PING clock is that of the last PING whose send worked, or the start |
| `Keepalive.PingsIff` | VPN/src/client/vpn_client.c:285-287 | A PING is due exactly when the link is not lost and the interval has gone by since then |
| `Keepalive.PongRecent` | VPN/src/client/vpn_client.c:346-351 | At every check the last PONG is at most gap plus D old |
| `Keepalive.NeverLost` | VPN/src/client/vpn_client.c:506-554 | If gap plus D is within the PONG timeout no session of any length is declared lost |
| `Keepalive.KeepaliveExact` | VPN/src/client/vpn_client.c:277-291 | All sessions with passes within T and PONGs within D stay alive if and only if (interval - 1) + T + D is at most the PONG timeout |
| `Liveness.NeverEvicted` | VPN/src/server/vpn_server.c:163-169 | In every run whatever: a client that connected and whose PINGs arrive within J of sending, with gap + J + R at most 300, if entered when an idle step comes, is entered after it |
| `Liveness.NeverRemoved` | VPN/src/server/vpn_server.c:61-187 | As long as from its CONNECT on no other active entry holds, and no CONNECT is given, its VPN address, such a client is entered after every event of any run, whatever the sweeps and the other clients do |
| `Heartbeat.EveryPingAnswered` | VPN/src/server/vpn_server.c:163-175 | In every run the server answers every PING with a PONG to its sender |
| `Heartbeat.NeverLostNorEvicted` | VPN/src/client/vpn_client.c:262-291 | Both machines together: if PINGs arrive within J and PONGs are handled within K, with gap + J + K within the PONG timeout and gap + J + R at most 300, the client never declares the link lost, no sweep of any run evicts it, and unshared it is entered after every event |
| `Liveness.FewAreUnshared` | VPN/src/server/client_manager.c:40-93 | In a run that hands out at most 254 addresses no address is ever shared |
| `Liveness.StepKeeps` | VPN/src/server/vpn_server.c:61-187 | While its VPN address is not shared, no event but an idle one or its own CONNECT or DISCONNECT removes a peer |
| `Liveness.StepSees` | VPN/src/server/vpn_server.c:61-187 | After any event a peer is gone or was seen as recently as before, and at this moment if the event is its PING |
| `EvictionBound.EvictionBoundExact` | VPN/src/server/client_manager.c:130-151 | No idle step of any run evicts such a client if and only if the gap between PINGs plus J plus R is at most 300 |
| `EvictionBound.RemovalBoundExact` | VPN/src/server/client_manager.c:130-151 | Every such client that shares its address with nobody stays entered in every run if and only if the same bound holds |
| `EvictionBound.EvictedPastBound` | VPN/src/server/vpn_server.c:408-414 | Past the bound a client that keeps every promise and shares its address with nobody is evicted by an idle step |
| `Liveness.RecentEnough` | VPN/src/server/client_manager.c:130-146 | At every server event such a client was last seen at most 300 seconds ago |
| `Liveness.ConnectStays` | VPN/src/server/vpn_server.c:84-91 | In any state, another peer's CONNECT, rolled back or not, leaves an entry alone whose VPN address it does not share |
| `Removal.LeaveFreesIff` | VPN/src/server/client_manager.c:96-127 | A DISCONNECT of one client frees the entry of another, or its own, exactly when both hold the same VPN address and that entry is the lowest of it |
| `Removal.LeaverGoneIff` | VPN/src/server/vpn_server.c:177-187 | A client is gone after its DISCONNECT if and only if its slot is the lowest of its address |
| `Wraparound.LeaverStays` | VPN/src/server/vpn_server.c:177-187 | A run reaches a state in which a DISCONNECT removes another client and leaves its sender entered |
| `Removal.RefusedGoneIff` | VPN/src/server/vpn_server.c:84-91 | After a failed handshake the refused peer is gone if and only if its slot is the lowest of its address |
| `Wraparound.RefusedStays` | VPN/src/server/vpn_server.c:84-91 | A run reaches a state in which a refused handshake removes another client and leaves the refused peer entered |
| `Backoff.BackoffDoubles` | VPN/src/client/vpn_client.c:293-318 | Failed attempt k + 1 in a row waits min(2^k, 60) seconds below the limit and nothing at it; the counter never passes the limit |
| `Backoff.TotalWait` | VPN/src/client/vpn_client.c:293-318 | k failures wait 2^k - 1 seconds in all up to the sixth and 63 + 60 (k - 6) after |
| `VpnClient.Client.constructor` | VPN/src/client/vpn_client.c:55-78 | A new client is not connected and has its initial counters |
| `VpnClient.Client.Request` | VPN/src/client/vpn_client.c:139-144 | Builds the CONNECT_REQ with the name cut to its field and the client's public key, under the next sequence number |
| `Wire.NameSentIff` | VPN/src/client/vpn_client.c:143 | The request carries the whole name, terminated, if and only if it has at most 30 bytes (31 if the uninitialised last byte is NUL); every byte of the field is spelled out |
| `VpnClient.Client.Accept` | VPN/src/client/vpn_client.c:162-226 | Session fields come from their offsets exactly when the answer reports success; key, link and counters are set if and only if it joins |
| `VpnClient.Client.AttemptReconnect` | VPN/src/client/vpn_client.c:293-327 | Waits and counts as the backoff model says; succeeds exactly below the limit with a joining answer and a working TUN |
| `VpnClient.Client.HandleTunToUdp` | VPN/src/client/vpn_client.c:386-428 | In its buffers, without leaving them: the datagram of the upload, under the next sequence number |
| `VpnClient.Client.HandleUdpToTun` | VPN/src/client/vpn_client.c:329-384 | Handles a datagram as the model says; only a PONG moves last_pong_received |
| `VpnClient.Client.CheckKeepalive` | VPN/src/client/vpn_client.c:277-291 | The check of the timed machine; exactly when a PING is due its header goes out under the next sequence number |
| `VpnClient.Client.Pass` | VPN/src/client/vpn_client.c:537-554 | One pass of the loop is one turn of the timed machine, with its PING |
| `VpnClient.Client.MainLoop` | VPN/src/client/vpn_client.c:506-554 | Over any turns the link, the counters and the waits are those of the loop machine |
| `VpnClient.Client.LoopTurn` | VPN/src/client/vpn_client.c:506-554 | One turn of the loop is one turn of the machine, reconnection and early exits included |
| `ClientLoop.AlwaysFirst` | VPN/src/client/vpn_client.c:292-327 | However long the program runs, every reconnection is a first attempt that waits one second, and the loop ends with at most one failed attempt |
| `ClientLoop.LimitIrrelevant` | VPN/src/client/vpn_client.c:506-516 | With any two values of max_reconnect_attempts of 1 or more the loop does the same in every turn |
| `ClientLoop.NoLimitNoRetry` | VPN/src/client/vpn_client.c:293-296 | With a value below 1 it does what it does without auto_reconnect |
| `ClientLoop.AfterLoss` | VPN/src/client/vpn_client.c:506-535 | A lost link is retried once, after one second; an answer that joins, with TUN set up, restarts the keepalive machine, and anything else leaves the loop |
| `ClientLoop.WhileUp` | VPN/src/client/vpn_client.c:518-554 | A link that is up takes its keepalive pass and nothing else; only a failing select leaves the loop |
| `ClientLoop.FollowsKeepalive` | VPN/src/client/vpn_client.c:506-554 | Until the keepalive machine over the passes is lost, the link is that machine and nothing is retried |
| `ClientLoop.StaysConnected` | VPN/src/client/vpn_client.c:277-291 | Timely passes answered within the bound keep the client connected for good |
| `Config.TrimIsCore` | VPN/src/common/config.c:35-56 | Trimming leaves the text between its outer spaces |
| `Config.CoreIsTrim` | VPN/src/common/config.c:35-56 | and nothing else can be called that |
| `Config.SpacesAre` | VPN/src/common/config.c:34-56 | The six characters that count as space |
| `Config.Padding` | VPN/src/common/config.c:77-96 | Spaces around a parsed line change nothing |
| `Config.PaddingInFile` | VPN/src/common/config.c:65-96 | In any file, spaces around a line within 511 bytes change nothing |
| `Config.CommentIgnored` | VPN/src/common/config.c:71-75 | From a # on a parsed line means nothing |
| `Config.CommentInFile` | VPN/src/common/config.c:65-75 | In any file, a comment at the end of a line within 511 bytes changes nothing |
| `Config.BlankIgnored` | VPN/src/common/config.c:79-82 | A blank line means nothing |
| `Config.LoadAppend` | VPN/src/common/config.c:68-122 | Parsing a newline-terminated text followed by another is parsing the second on top of the first, whatever the line lengths |
| `Config.LoadLine` | VPN/src/common/config.c:65-68 | A line of at most 511 bytes is parsed as one line |
| `Config.FgetsIff` | VPN/src/common/config.c:65-68 | A line ends at its newline, at the end of the file or after 511 bytes, whichever comes first |
| `ConfigSettings.LongLineSplits` | VPN/src/common/config.c:65-68 | The rest of a longer line is parsed as a line of its own |
| `ConfigSettings.LongCommentLeaks` | VPN/src/common/config.c:65-75 | So the end of a comment of more than 511 bytes takes effect |
| `Config.InsertIgnored` | VPN/src/common/config.c:71-82 | Comment lines and blank lines can be inserted between lines anywhere |
| `ConfigLoader.Strchr` | VPN/src/common/config.c:72 | Finds the first occurrence in a C string, or its end |
| `ConfigLoader.Trim` | VPN/src/common/config.c:35-56 | In place: the string becomes its trim; nothing before it or after its NUL changes |
| `ConfigLoader.Loader.Reduce` | VPN/src/common/config.c:71-77 | In place: comment cut off and line trimmed |
| `ConfigLoader.Loader.Split` | VPN/src/common/config.c:91-96 | In place: key and value on both sides of the first =, both trimmed |
| `ConfigLoader.Loader.ParseLine` | VPN/src/common/config.c:71-121 | In place: the settings after are those of the line parsed on the settings before |
| `ConfigLoader.Loader.Fgets` | VPN/src/common/config.c:65-68 | Takes a line, or 511 bytes, or the rest |
| `ConfigLoader.Loader.Load` | VPN/src/common/config.c:58-126 | The settings after are those of the whole text |
| `ConfigRoundTrip.PrintAllLoads` | CloudService/src/main/java/com/computer_architecture/cloudservice/domain/vpn/controller/VpnController.java:92-109 | Parsing any printed list of settings and remarks carries out its settings in order |
| `ConfigRoundTrip.GeneratedLoads` | CloudService/src/main/java/com/computer_architecture/cloudservice/domain/vpn/controller/VpnController.java:92-109 | For every name without newline of at most 501 bytes the generated file gives exactly the generator's settings, and the name cut before NUL and #, trimmed, and cut to its field |
| `ConfigRoundTrip.LaterSettingsLoad` | CloudService/src/main/java/com/computer_architecture/cloudservice/domain/vpn/controller/VpnController.java:92-109 | Whatever the name, the settings printed after it come through |
| `ConfigRoundTrip.NewlineAddsSetting` | CloudService/src/main/java/com/computer_architecture/cloudservice/domain/vpn/controller/VpnController.java:92-109 | What follows a newline in the name is parsed as a setting of its own |
| `ConfigRoundTrip.AddressReplaced` | CloudService/src/main/java/com/computer_architecture/cloudservice/domain/vpn/controller/VpnController.java:92-109 | So such a name can stand in for the server address of the file |
| `ConfigRoundTrip.LoadClean` | VPN/src/common/config.c:68-122 | No file whatever puts # or newline into the name |
| `ConfigRoundTrip.ReadCopied` | VPN/src/common/config.c:104 | What strncpy leaves to be read, by length |
| `ConfigRoundTrip.NameSurvivesIff` | CloudService/src/main/java/com/computer_architecture/cloudservice/domain/vpn/controller/VpnController.java:92-109 | The configuration field holds the generated name if and only if it has no NUL, # or newline, is trimmed, and has at most 62 bytes (63 if the uninitialised last byte is NUL) |
| `ConfigRoundTrip.NameReachesClientIff` | VPN/src/client/vpn_client.c:485 | The client's own copy is the generated name if and only if it has no NUL, # or newline, is trimmed, and has at most 63 bytes |
| `ConfigRoundTrip.AtoiDecimal` | VPN/src/common/config.c:102-112 | Every number of either sign is read back from its decimal print |
| `ConfigSettings.AtoiReads` | VPN/src/common/config.c:102-112 | Any number with padding, sign, leading zeroes and trailing text is read |
| `ConfigSettings.AtoiOfNothing` | VPN/src/common/config.c:102-112 | A text without a number is 0 |
| `ConfigSettings.NumeralWrites` | VPN/src/common/config.c:71-112 | Such numbers are what a value says, with spaces and a comment around them |
| `ConfigSettings.DecimalWrites` | VPN/src/common/config.c:102-112 | In particular every decimal of either sign |
| `ConfigSettings.PortSets` | VPN/src/common/config.c:101-102 | server_port sets the port to the number written modulo 65536, and nothing else |
| `ConfigSettings.ReconnectSets` | VPN/src/common/config.c:105-106 | auto_reconnect sets its field to the number written, and nothing else |
| `ConfigSettings.AttemptsSets` | VPN/src/common/config.c:107-108 | max_reconnect_attempts sets its field to the number written, and nothing else |
| `ConfigSettings.IntervalSets` | VPN/src/common/config.c:109-110 | keepalive_interval sets its field to the number written, and nothing else |
| `ConfigSettings.TimeoutSets` | VPN/src/common/config.c:111-112 | pong_timeout sets its field to the number written, and nothing else |
| `ConfigSettings.LevelSets` | VPN/src/common/config.c:113-118 | log_level is 0 to 3 for the four names and the number written otherwise, and nothing else changes |
| `ConfigSettings.AddressSets` | VPN/src/common/config.c:99-100 | server_address fills its field up to the last byte, and nothing else changes |
| `ConfigSettings.NameSets` | VPN/src/common/config.c:103-104 | username fills its field up to the last byte, and nothing else changes |
| `ConfigSettings.UnknownIgnored` | VPN/src/common/config.c:119-121 | Any other key is ignored |
| `ConfigSettings.NoEqualsIgnored` | VPN/src/common/config.c:85-89 | A line without an equals sign is ignored |
| `ConfigSettings.Defaults` | VPN/src/common/config.c:9-26 | The settings before any file is read |
| `ConfigRoundTrip.LevelRoundTrip` | VPN/src/common/config.c:113-118 | Reading a log level back from the name it is printed under gives the level |
| `Decimals.DecimalInverse` | CloudService/src/main/java/com/computer_architecture/cloudservice/domain/vm/service/VmServiceImpl.java:224 | Decimal printing can be undone |
| `VmAddress.FreedAddressReused` | CloudService/src/main/java/com/computer_architecture/cloudservice/domain/vm/service/VmServiceImpl.java:197-231 | With all 91 addresses taken, after any run, the address a delete frees is the one the next create gets |
| `VmAddress.CandidatesDiffer` | CloudService/src/main/java/com/computer_architecture/cloudservice/domain/vm/service/VmServiceImpl.java:224 | Addresses of 10.8.0.x, one for each host number, which can be read off them |
| `VmAddress.Least` | CloudService/src/main/java/com/computer_architecture/cloudservice/domain/vm/service/VmServiceImpl.java:223-228 | The least host number not in use; none if and only if all are |
| `VmAddress.RunSound` | CloudService/src/main/java/com/computer_architecture/cloudservice/domain/vm/service/VmServiceImpl.java:52-127 | Over every serial run of creates and deletes live machines hold pairwise different addresses of 10.8.0.9 to 10.8.0.99 |
| `VmAddress.AllocationFailsIff` | CloudService/src/main/java/com/computer_architecture/cloudservice/domain/vm/service/VmServiceImpl.java:218-231 | Over every such run allocation fails if and only if 91 machines are live, and never more are |
| `VmAddress.CreateOutcome` | CloudService/src/main/java/com/computer_architecture/cloudservice/domain/vm/service/VmServiceImpl.java:52-127 | After any run a create adds one machine, with a new id and the least free address, if and only if the member exists, Proxmox does its part and fewer than 91 are live; otherwise nothing changes |
| `VmAddress.DeleteOutcome` | CloudService/src/main/java/com/computer_architecture/cloudservice/domain/vm/service/VmServiceImpl.java:197-213 | A delete takes the machine named, if Proxmox does its part, and no other |
| `VmAddress.Ends` | CloudService/src/main/java/com/computer_architecture/cloudservice/domain/vm/service/VmServiceImpl.java:223-224 | The ends of the range, written out |
| `VmAddress.VmService.AllocateInternalIp` | CloudService/src/main/java/com/computer_architecture/cloudservice/domain/vm/service/VmServiceImpl.java:218-231 | Returns the least unused address, or the error when there is none |
| `VmAddress.VmService.CreateVm` | CloudService/src/main/java/com/computer_architecture/cloudservice/domain/vm/service/VmServiceImpl.java:52-127 | The repository after is that of the create step; a call that throws changes nothing |
| `VmAddress.VmService.DeleteVm` | CloudService/src/main/java/com/computer_architecture/cloudservice/domain/vm/service/VmServiceImpl.java:197-213 | The repository after is that of the delete step; it succeeds exactly for a known machine that Proxmox deletes |

## Left out

- libsodium itself (`VPN/src/enclave/crypto.c`): primitives are functions with stated laws; a failing encryption call and the optional salt of the key derivation are not modelled.
- Sockets, TUN devices, `ioctl`, process start, `mlock`, signals and start-up code: reads are inputs and writes are results.
- Logging and the `print_*` functions: output only.
- Partial and failing IPC: a request or reply that arrives in pieces is modelled only as far as `Ipc.TakeRequest` says what a short read consumes.
- The enclave's death check in the idle branch and the clean-up after the event loop.
- Replay rejection, timestamp windows, quality of service and seccomp, which the documentation describes and the code does not contain.
- User authentication and the web service's other endpoints, data classes, repositories and Proxmox calls: they would only add easy members.
- `getNextVmId` and concurrent calls of `createVm`: the model is serial, as one transaction after another.
- Keepalive.Check: the clock is read once per check, so the few instructions between the check and the PING it sends take no time; the time a PONG is handled at is a separate reading.
- Wire.ClientReceive: a DATA datagram shorter than header and nonce makes the C code compute a negative length; the model reports it as Undefined and says no more.
- Config.Apply: numbers are unbounded, since `atoi` is undefined on overflow; only the cast of the port to 16 bits is modelled.
- EnclaveProcess.Process.HandleIpcRequest: a request that announces more than 4096 bytes of data, or a plaintext that leaves no room for nonce and tag, is excluded, because the C code then writes past its buffers.
- EnclaveProcess.Process.Execute: excludes the same requests, for the same reason.
- EnclaveProcess.Process.ServeAll: a stream holding such a request is excluded, for the same reason.
- EnclaveProcess.Process.ServeRequests: excludes the same requests, for the same reason.
- VpnServer.Server.EventLoop: runs in which a packet of more than 2004 bytes is routed to a client with a key are excluded, because the C code then writes past its packet buffer.
- ConfigRoundTrip.GeneratedLoads: names with a newline or of more than 501 bytes are left to `LaterSettingsLoad` and `NewlineAddsSetting`; which of them keep the address and the port is not characterised further.
- VpnClient.Client.MainLoop: the CONNECT_REQ of a reconnection and packets from the TUN device, which take sequence numbers too, are modelled by their own methods and not inside the loop.
- Session ids are inputs and are only followed, since nothing decides on them; sequence and request numbers wrap at 32 bits.
