# Chat server verification

A Dafny model of the chat service in this repository, with proofs. It covers

- the chat server: sessions, rooms, accounts, private rooms, file permission and administration, as
  one shared state changed by the request handlers, and every run of any number of clients;
- the request and answer formats, the handlers that take requests off a socket, the relay of files,
  and the client that sends and reassembles them;
- the thread pool, the client registry, and the event loop that hands clients to workers;
- the containers underneath: the binary search tree, the hash table and the linked list.

`dafny verify dfyconfig.toml` checks everything.

## How the model is built

**Two forms of the server.** `ChatModel` gives each critical section of a handler as a function on
the server state (a value of `ChatState`). `ChatServer` is the same server as objects with fields
that are updated in place; every method is proved to change the objects exactly as its function
says, and to send exactly the packets that the function lists. The properties are proved about the
functions: `ChatInvariant` (the mutual invariants of sessions, rooms, session store, request tables
and accounts), `ChatHandlers` (what each handler keeps and guarantees), `ChatAnswers` (when it
succeeds) and `ChatRuns` (every interleaving of handlers). In `ChatRuns` a login is three steps, a
file transfer two, and any other handler one, because that is how the code takes its lock. A handler
that returns a failure status makes the server drop the client (server/src/client.c:54-70), which the
model follows: an unknown request flag or a relay that broke off ends the connection. `ChatServerRuns`
proves that the methods of `ChatServer` make the steps of `ChatRuns`, and `ChatProgress` that no client
is ever stuck.

**Transfers.** `ChatTransfers` takes the file transfer of `ChatRuns` apart: a sender that has passed the
check waits for `file_lock`, then sends its payloads one by one, gives up or comes to the end, lets
the lock go and finishes, while every other handler goes on putting frames on the same sockets.
`ChatTransferRuns` proves what that lock is for, about every run: relays into a client do not mix, no
client writes more files than it accepted requests, and the listener of `ChatListener` writes exactly
the completed files. Its runs are runs of `ChatRuns`. `ChatReadable` shows that no text of the
server's own can end a listener. `ChatPackets` has the packets of requests and private rooms in full, and
`ChatDelivery` what every client hears of every move, over whole runs. `EndToEnd` is one `put` from the
command to the file on the other side.

**Threads.** `ThreadPool` is a state machine whose steps are the stretches of code under
`work_mutex`, for unboundedly many workers, producers and waiters, with spurious wake-ups.
`ThreadPoolMonitor` has the same sections as methods on the linked queue, and `ThreadPoolSteps` proves
that each method makes the machine's step, and reads a run off its calls. `Dispatch` is the life of a
client between epoll, the batch of events, the queue, the workers and the registry; `DispatchSteps` says,
step by step, which client ends and where the others go.

**Sockets.** A socket is the whole stream that the peer sends, a position in it, and a bounded but
otherwise arbitrary number of interrupts; every receive and send may move any positive number of
bytes. A handler's answer depends on a `Verdict`, which stands for whatever the server state decides,
so the framing theorems hold for every state: `sessionOk` is the outcome of `validate_session`,
`mayRelay` that of the checks modelled by `ChatModel.FileCheck`. `EndToEnd.AnswersAgree` says that the
return code that goes out then is the one of the handler in `ChatModel`. `ChatReplies` gives the answer
to every request byte by byte for any verdict, and `ChatProtocol` for the server state: the table of
answers of the protocol. `Utf8` has the byte strings that `decode("utf-8")` accepts, which are the encoded
texts; where the client decodes anything else, an exception ends its listener, and so does a file name
that `open` cannot open.

**Containers.** Tree, list and table are classes with heap nodes. A link of the tree is the root
field, or the left or right field of a node, which is what a pointer to a link can be.

## What the code does where one might expect something else

- Two private rooms can have the same name: `respond_pm_accept` never looks one up
  (chat/src/chat_transfer.c:191-199). Names stay distinct if and only if no room has the new name yet
  (`ChatLimits.NamesStayDistinctExactly`), and no other step of the server can end it
  (`ChatLimitRuns.StepNamesExactly`); `ChatWitness.TwoRoomsOfOneName` is a run, of two users who talk in
  private twice, after which they are not.
- The name of a private room depends on who asked when one of two different usernames is a prefix of
  the other; `ChatHandlers.PmRoomNameSymmetric` gives the exact condition,
  `ChatLimits.NameDependsOnWhoAsks` the case of bob and bobby.
- Whoever is in a room has an entry in both request tables, but not the other way round: a request
  writes the entry of its target whether or not the target is in a room.
  `ChatLimits.EntriesExactly` and `ChatLimits.BothEntriesExactly` say, by what holds before the request,
  exactly when that makes an entry for a user in no room, `ChatLimitRuns.StepEntriesExactly` that no other
  step does, and `ChatWitness.RoomlessEntries` is a run that does. Such a user cannot answer the request
  (`ChatLimits.NoAnswerWithoutRoom`), further ones of its kind are PENDING until the user enters a room
  (`ChatLimits.PendingUntilEntering`), and the entry even outlives a logout
  (`ChatLimits.EntrySurvivesLogoutExactly`).
- The permission to send a file, `user_allow`, belongs to the connection and not to the user: it survives
  a logout, and is changed by nothing but an accepted file request and a relay that went through
  (`ChatPermissions.PermissionChangesOnly`). Whoever logs in next on the connection may be sent files on
  the word of the user before; `ChatPermissions.PermissionOutlivesLogoutExactly` states exactly when, and
  `ChatWitness.CarolInheritsPermission` is a run in which it happens. The accepted requests that
  `RelaysNeedAccepts` and `FilesNeedAccepts` count are therefore those of a connection.
- Session ids are 32 bits wide. `ChatInvariant.LoginKeepsInvExactly` states when a login keeps the state
  in order: exactly when the counter has not come round to 0. The login that meets 0 is refused and
  yet leaves its name in the session store, for good: `ChatLimits.NameIsStuckForever` says so about
  every run that follows, and `ChatLimits.ComeRoundBreaks` gives such a state. The theorems about runs
  are for runs that hand out fewer than 2^32 ids.
- The `len` of a hash table counts buckets in use, not items.
- A file is relayed only if both names and its first chunk fit one packet of 4096 bytes, and it is
  written only if its name decodes and the last part of it can be opened: a destination like `out/`
  ends the target's listener instead. `ChatClient.FileArrives` states when a file arrives, in both
  directions, and `ChatClient.NothingArrivesAtDirectory` that case.

## Model

| member | source | states |
|---|---|---|
| ByteStrings.MemCmpZero | bst/src/bst.c:566-590 | the common-prefix comparison answers 0 exactly on equal prefixes |
| ByteStrings.MemCmpSwap | bst/src/bst.c:566-590 | swapping the arguments swaps the sign of the comparison |
| ByteStrings.CompareZero | bst/src/bst.c:566-590 | the default comparison answers 0 exactly on equal byte strings |
| ByteStrings.CompareTransitive | sll/src/sll.c:408-432 | the default order is transitive |
| ByteStrings.CompareIsStrictTotalOrder | bst/src/bst.c:533-594 | the default comparison is a strict total order on byte strings |
| ByteStrings.CompareIsDictionaryOrder | sll/src/sll.c:375-436 | one string is less than another exactly when it is a proper prefix of it or smaller at the first difference |
| BinarySearchTree.Tree.constructor | bst/src/bst.c:106-131 | a new tree is valid and empty |
| BinarySearchTree.Tree.GetLink | bst/src/bst.c:335-369 | the link holds the node of the key exactly when the tree has one, and is otherwise the only place where it could go |
| BinarySearchTree.Tree.Get | bst/src/bst.c:183-203 | finds the node of the key exactly when the tree holds the key |
| BinarySearchTree.Tree.Set | bst/src/bst.c:205-245 | inserts one node in order exactly when the key is absent; otherwise EXISTS, and no field of the tree or of any node is touched; len counts the nodes |
| BinarySearchTree.Tree.SuccessorLink | bst/src/bst.c:276-282 | the loop to the left ends at the link that holds the first node, in key order, of the right subtree |
| BinarySearchTree.Tree.SpliceSuccessor | bst/src/bst.c:276-290 | taking the successor out and putting it in the target's place keeps the order, also when it is the direct right child |
| BinarySearchTree.Tree.DeleteAt | bst/src/bst.c:258-312 | the target leaves the in-order sequence and every other node object stays |
| BinarySearchTree.Tree.Del | bst/src/bst.c:247-316 | exactly the node of the key disappears, all others stay in order, len drops by one; for a missing key no field of the tree or of any node is touched |
| BinarySearchTree.Tree.Foreach | bst/src/bst.c:318-333 | visits the elements in strictly ascending order, each once, up to the first failure |
| BinarySearchTree.Tree.SubtreeForeach | bst/src/bst.c:399-434 | the recursive visit is the in-order sequence, cut at the first failure |
| BinarySearchTree.Tree.SubtreeDestroy | bst/src/bst.c:371-397 | frees every node of the subtree exactly once |
| BinarySearchTree.InorderPlug | bst/src/bst.c:335-369 | replacing a subtree changes the in-order sequence of the whole tree only where the subtree stood |
| BinarySearchTree.NotThere | bst/src/bst.c:335-369 | a search that ends at an empty link proves the key absent |
| LinkedList.Sll.constructor | sll/src/sll.c:45-70 | a new list is valid and empty |
| LinkedList.Sll.Get | sll/src/sll.c:145-176 | answers the first node that the comparison accepts, or null when none is |
| LinkedList.Sll.Insert | sll/src/sll.c:178-247 | a fresh node stands at the index and all other nodes keep their order; out of bounds changes nothing |
| LinkedList.Sll.Append | sll/src/sll.c:249-264 | the element is added at the end |
| LinkedList.Sll.Remove | sll/src/sll.c:266-318 | exactly the first accepted node leaves; NOT_EXISTS changes nothing |
| LinkedList.Sll.Foreach | sll/src/sll.c:320-349 | visits in list order up to and including the first failure |
| HashTable.Djb2IsPolyMod | ht/src/ht.c:454-469 | wrapping at every byte equals the base-33 polynomial reduced once modulo 2^64 |
| HashTable.Djb2Hash | ht/src/ht.c:454-469 | the shift-and-add loop computes djb2 of the key in 64-bit arithmetic |
| HashTable.ItemCompareZero | ht/src/ht.c:512-575 | two items with the hashes of their keys compare equal exactly when their keys are equal |
| HashTable.ChainFind | ht/src/ht.c:226-260 | a probe stops at the item of its key, or at the end exactly when the chain has no such item |
| HashTable.OccupiedUpdate | ht/src/ht.c:352-356 | changing one chain changes the count of used buckets by what that chain calls for |
| HashTable.Ht.constructor | ht/src/ht.c:85-144 | an empty table with one list per bucket |
| HashTable.Ht.Create | ht/src/ht.c:85-144 | no table for capacity 0, otherwise an empty map |
| HashTable.Ht.Get | ht/src/ht.c:226-260 | answers the item with the value that the map gives, and null exactly for an absent key |
| HashTable.Ht.Set | ht/src/ht.c:262-372 | the map gains or replaces exactly this key; EXISTS exactly when the key was there; len counts the used buckets |
| HashTable.Ht.Del | ht/src/ht.c:374-416 | the map loses exactly this key; NOT_EXISTS exactly when it was absent |
| HashTable.Ht.Foreach | ht/src/ht.c:418-452 | visits bucket after bucket, each chain in order, up to the first failure |
| HashTable.Ht.AppendTo | ht/src/ht.c:342-356 | a new item goes to the end of its own bucket's chain, and len grows when the bucket was empty |
| HashTable.Ht.DelFrom | ht/src/ht.c:401-412 | the item of the key leaves its chain, and len drops when the bucket becomes empty |
| HashTable.AppendedChains | ht/src/ht.c:342-356 | appending an item of a new key keeps items in their buckets and keys distinct |
| HashTable.RemovedChains | ht/src/ht.c:401-412 | cutting an item out takes that key and no other out of the table |
| HashTable.SameKeySameItem | ht/src/ht.c:471-485 | across the whole table a key belongs to one item |
| ThreadPoolMonitor.TPool.AddWork | tpool/src/tpool.c:194-238 | accepted exactly when stop is not set, and then queued last |
| ThreadPoolMonitor.TPool.WorkGet | tpool/src/tpool.c:294-320 | unlinks the oldest work item |
| ThreadPoolMonitor.TPool.WorkerCheck | tpool/src/tpool.c:331-353 | sleeps exactly on an empty queue without stop, exits exactly on stop, otherwise starts the oldest job and counts it |
| ThreadPoolMonitor.TPool.WorkerFinish | tpool/src/tpool.c:367-380 | guarded decrement, and waiters are woken exactly when all is quiet |
| ThreadPoolMonitor.TPool.WaitCheck | tpool/src/tpool.c:248-254 | the wait is over exactly when nothing is queued and nothing runs |
| ThreadPoolMonitor.TPool.Discard | tpool/src/tpool.c:155-173 | stop is set and every queued item is handed back once, in order |
| ThreadPool.DecrementNeverSkipped | tpool/src/tpool.c:369-372 | the guard around the decrement never skips it |
| ThreadPool.StepConserves | tpool/src/tpool.c:157-232 | every step keeps accepted work equal to started work, then discarded, then queued; what each step accepts and starts is ThreadPoolSteps.WhatMoves |
| ThreadPool.StepKeepsInv | tpool/src/tpool.c:194-385 | every step keeps the counters, the wake-up conditions, conservation and the tickets of started jobs |
| ThreadPool.RunKeepsInv | tpool/src/tpool.c:194-385 | the same after any run |
| ThreadPool.InitEstablishesInv | tpool/src/tpool.c:53-144 | a new pool satisfies the invariant |
| ThreadPool.NoLostWakeups | tpool/src/tpool.c:220-254 | while a worker sleeps, queued items are at most the awake workers heading for the queue; a sleeping waiter always has something to wait for |
| ThreadPool.WorkIsConserved | tpool/src/tpool.c:157-232 | accepted work is started work in order followed by the queue or the discarded items; working_cnt is exact; a started job is unfinished exactly while one worker holds it; that the accepted work is what the calls submitted is ThreadPoolSteps.WorkFromCalls |
| ThreadPool.WaitReturnsOnlyWhenDone | tpool/src/tpool.c:240-261 | when tpool_wait returns every accepted job has finished or was discarded |
| ThreadPool.NothingAfterStop | tpool/src/tpool.c:211-218 | after stop nothing is accepted, started or discarded |
| ThreadPool.StepAfterStop | tpool/src/tpool.c:340-380 | after stop every worker step lowers the termination measure by one and no other step raises it |
| ThreadPool.ShutdownTerminates | tpool/src/tpool.c:155-179 | after stop the workers take exactly the measured number of steps until all have exited, and until then one of them can always step |
| ThreadPool.WaitersReleasedAfterShutdown | tpool/src/tpool.c:170-173 | once all workers have exited nobody sleeps in tpool_wait and its next check returns |
| ThreadPoolSteps.AddWorkIsStep | tpool/src/tpool.c:194-238 | tpool_add_work on the object is the step of the machine, and answers true exactly when the machine accepts the job |
| ThreadPoolSteps.WorkerCheckIsStep | tpool/src/tpool.c:331-353 | the worker's check on the object is the step of the machine: it sleeps, leaves or starts the oldest job exactly when the machine's worker does |
| ThreadPoolSteps.WorkerFinishIsStep | tpool/src/tpool.c:367-380 | the end of a job on the object is the step of the machine, and wakes the waiters exactly when the machine does |
| ThreadPoolSteps.WaitCheckIsStep | tpool/src/tpool.c:248-254 | the loop test of tpool_wait decides whether the machine's waiter returns or sleeps |
| ThreadPoolSteps.DestroyIsStep | tpool/src/tpool.c:155-173 | tpool_destroy on the object is the step of the machine, and what it hands back is what the machine discards |
| ThreadPoolSteps.WhatMoves | tpool/src/tpool.c:155-380 | the shared fields and the histories after each step: a job is queued last and accepted unless stop is set, the oldest one starts, the counter goes up and down |
| ThreadPoolSteps.WhoMoves | tpool/src/tpool.c:170-380 | each step moves the worker that it names, or wakes the sleepers that it wakes, and no others |
| ThreadPoolSteps.WhoWaits | tpool/src/tpool.c:240-261 | the same for the threads in tpool_wait, which return exactly when nothing is queued and nothing runs |
| ThreadPoolSteps.WhatMayHappen | tpool/src/tpool.c:194-385 | whoever is awake may go on, anybody may call, sleepers may wake by themselves, and a new job wakes a sleeping worker if there is one |
| ThreadPoolSteps.AcceptsFrom | tpool/src/tpool.c:211-232 | from any state on, a run accepts exactly the jobs of the calls before tpool_destroy, and finishes as many as return |
| ThreadPoolSteps.WorkFromCalls | tpool/src/tpool.c:155-232 | in any run from a new pool the submitted jobs are the started ones, in the order of the calls, followed by the queue, or after tpool_destroy by what it discarded |
| ChatTypes.IndexOf | chat/src/chat_internal.c:61-62 | the position found is the first of the byte |
| ChatTypes.SplitRecoversUsers | chat/src/chat_internal.c:61-71 | splitting a joined name at its first plus sign gives back the two names |
| ChatTypes.SplitOnlyWithPlus | chat/src/chat_internal.c:61-71 | a room is private exactly when its name has a plus sign |
| ChatTypes.CharacterClasses | chat/src/chat_internal.c:423-446 | the characters of usernames and passwords are isalnum and isprint without the space |
| ChatInvariant.InitHolds | chat/src/chat.c:452-489 | the seeded state satisfies the invariant |
| ChatInvariant.LeaveEffect | chat/src/chat_internal.c:318-356 | leaving takes the session off its room's list and out of both request tables and changes no other session or room |
| ChatInvariant.LeaveKeepsInv | chat/src/chat_internal.c:318-356 | user_leave keeps the invariant |
| ChatInvariant.MoveKeepsInv | chat/src/chat_room.c:125-131 | moving a logged-in user to a room that admits it succeeds and keeps the invariant |
| ChatInvariant.AddRoomKeepsInv | chat/src/chat_room.c:87-98 | a new room keeps the invariant when its name has a plus sign or is new |
| ChatInvariant.LogoutEffect | chat/src/chat_internal.c:210-250 | logging out takes exactly the session's own name out of the session store |
| ChatInvariant.LogoutKeepsInv | chat/src/chat_internal.c:210-250 | logout keeps the invariant and leaves no reference to the session; the file permission stays |
| ChatInvariant.ConnectKeepsInv | chat/src/chat.c:295-388 | a new client keeps the invariant |
| ChatInvariant.CloseKeepsInv | chat/src/chat.c:390-450 | closing a client keeps the invariant and leaves no reference to its session |
| ChatInvariant.LoginEffect | chat/src/chat_internal.c:114-208 | what an accepted and what a refused login change, field by field |
| ChatInvariant.RefusedLoginKeepsInv | chat/src/chat_internal.c:137-185 | a refused login changes nothing, so it cannot evict the live session |
| ChatInvariant.AcceptedLoginKeepsInv | chat/src/chat_internal.c:185-204 | an accepted login keeps the invariant |
| ChatInvariant.LoginKeepsInvExactly | chat/src/chat_internal.c:196-204 | a login keeps the invariant if and only if it is not an accepted one at a counter that has come round to 0, and what is left behind otherwise |
| ChatLimits.NameIsStuckForever | chat/src/chat_internal.c:185-238 | after that login, in every run that follows, whatever its handlers, the name stays in the session store, nobody is logged in under it, and every login under it fails |
| ChatLimits.RunStuck | chat/src/chat_internal.c:226-238 | a name in the session store under which nobody is logged in stays there through any run: no logout, close, login or disconnect takes it out |
| ChatLimits.ComeRoundBreaks | chat/src/chat_internal.c:196-204 | a state with the counter at 0 that satisfies the invariant, and in which the next login breaks it |
| ChatHandlers.FindRoomResult | chat/src/chat.c:673-730 | the room found is the first of that name in the store, and none is found exactly when there is none |
| ChatHandlers.JoinKeepsInv | chat/src/chat_room.c:14-145 | join succeeds exactly for a valid session and an alphanumeric name, lands in a room of that name, and otherwise changes nothing |
| ChatHandlers.PmRoomNameSymmetric | chat/src/chat_transfer.c:162-188 | the private room's name is independent of who asked if and only if neither name is a proper prefix of the other; which name comes first is ChatPackets.PrivateRoomIsNamedInOrder |
| ChatHandlers.PmRoomAdmitsBoth | chat/src/chat_internal.c:271-292 | the private room admits the two users of its name and nobody else |
| ChatHandlers.ValidNameHasNoPlus | chat/src/chat_internal.c:379-451 | a valid username contains no plus sign |
| ChatHandlers.PmAcceptKeepsInv | chat/src/chat_transfer.c:136-221 | accepting a private conversation brings both users into the new room, touches nobody else's session and keeps the invariant |
| ChatHandlers.PrivateNamesMayRepeat | chat/src/chat_transfer.c:191-199 | a second acceptance between the same users leaves two rooms of the same name; when names stay distinct is the row of NamesStayDistinctExactly |
| ChatPackets.FirstDifferenceDecides | chat/src/chat_transfer.c:163-170 | memcmp is decided by the first byte in which two names differ |
| ChatPackets.PrivateRoomIsNamedInOrder | chat/src/chat_transfer.c:162-213 | the created room is named after its two users in the order of their first different bytes, or the one who asked first when there is none, and both JOIN packets carry exactly that name |
| ChatLimits.NamesStayDistinctExactly | chat/src/chat_transfer.c:162-199 | accepting a private conversation keeps the names of all rooms distinct if and only if no room has the name of the new one |
| ChatWitness.TwoRoomsOfOneName | chat/src/chat_transfer.c:136-221 | a run from the start of the server, two users who talk in private twice, ends with two rooms of the same name |
| ChatLimits.NameDependsOnWhoAsks | chat/src/chat_transfer.c:162-188 | bob and bobby get the room bob+bobby or bobby+bob, by who asked |
| ChatLimits.EntriesExactly | chat/src/chat_transfer.c:747-842 | a request makes an entry for a user in no room if and only if it gets as far as the table, none of its kind is pending at its target, and the target is in no room |
| ChatLimits.BothEntriesExactly | chat/src/chat_transfer.c:747-842 | a request gives a user in no room entries in both tables if and only if it gets as far as the table, none of its kind is pending at its target, the target is in no room, and the other table has an entry already |
| ChatLimits.NoAnswerWithoutRoom | chat/src/chat_transfer.c:511-522 | a user in no room cannot answer a request, and trying changes nothing |
| ChatLimits.PendingUntilEntering | chat/src/chat_transfer.c:432-438 | while a request is pending every further one of its kind is answered PENDING and changes nothing; entering a room clears it |
| ChatLimits.EntrySurvivesLogoutExactly | chat/src/chat_internal.c:318-356 | the entry of a user outlives the logout if and only if the user is in no room then |
| ChatLimitRuns.StepNamesExactly | chat/src/chat_transfer.c:191-199 | of all steps of the server only an answer that opens a private conversation can end the distinctness of room names, and it does exactly when there is a room of that name |
| ChatLimitRuns.StepEntriesExactly | chat/src/chat_transfer.c:747-842 | of all steps of the server only a request can end that an entry, or one in both tables, means being in a room, and it does exactly when it writes such an entry for a user in no room |
| ChatLimitRuns.RegularUntil | chat/src/chat_transfer.c:136-221 | in any run from the start without a step of these kinds room names are distinct and entries mean being in a room |
| ChatPermissions.PermissionOutlivesLogoutExactly | chat/src/chat_internal.c:210-250 | when a user logs out and another logs in on the same connection, a relay towards the new one may start if and only if the sender was valid, in a room, and had the permission of the user before |
| ChatPermissions.PermissionChangesOnly | chat/src/chat_transfer.c:716-727 | of all steps only the acceptance of a file request and the end of a relay that went through change a permission that is there before and after |
| ChatWitness.CarolInheritsPermission | chat/src/chat_internal.c:210-250 | a run from the start of the server: alice accepts a file of bobby and logs out, carol logs in on her connection, and bobby may send carol a file that she never accepted |
| ChatWitness.RoomlessEntries | chat/src/chat_transfer.c:747-842 | a run from the start of the server ends with entries in both tables for a user in no room |
| ChatHandlers.RequestDiscipline | chat/src/chat_transfer.c:747-842 | a request is recorded exactly when none of its kind is pending at the target; a second one is PENDING; everything but success changes nothing |
| ChatHandlers.RequestKeepsInv | chat/src/chat_transfer.c:356-452 | opcode_request keeps the invariant |
| ChatHandlers.RespondDiscipline | chat/src/chat_transfer.c:844-991 | an answer succeeds exactly for the username recorded as pending and consumes the request; any other answer changes nothing |
| ChatPackets.RequestTells | chat/src/chat_transfer.c:783-838 | a recorded request is told to the user it asks alone, in the words of its kind and with the sender's name; a refused one to nobody |
| ChatPackets.RespondTells | chat/src/chat_transfer.c:881-985 | a declined request is told to both users in the words of its kind; an accepted private conversation gives both the name of the room; an accepted file, and a refused answer, tell nobody anything |
| ChatHandlers.RespondKeepsInv | chat/src/chat_transfer.c:454-568 | opcode_respond keeps the invariant |
| ChatHandlers.AcceptEffect | chat/src/chat_transfer.c:952-977 | an accepted file request gives the requester alone permission; an accepted private one puts both users into a room of their own |
| ChatHandlers.BroadcastReachesExactlyTheRoom | chat/src/chat_msg.c:90-132 | one frame to each session whose room it is and none to anybody else |
| ChatHandlers.LeaveAllEmpties | chat/src/chat_admin.c:346-353 | the loop over the member list ends with that list empty and every member roomless |
| ChatHandlers.DeleteRemovesWhatItEmptied | chat/src/chat_admin.c:315-357 | the emptied room is the removed one even among equal names; exactly its members become roomless and all other rooms stay |
| ChatHandlers.DeleteSafe | chat/src/chat_admin.c:252-366 | opcode_delete keeps the invariant, names, ids, permissions and accounts |
| ChatHandlers.LogoutSafe | chat/src/chat_auth.c:117-172 | logout keeps the invariant and everybody else's name, id and permission |
| ChatHandlers.RequestSafe | chat/src/chat_transfer.c:356-452 | opcode_request moves no name, id, permission or account |
| ChatHandlers.PromoteSafe | chat/src/chat_admin.c:49-142 | opcode_promote keeps the invariant and moves no name, id, permission or account |
| ChatAnswers.LoginSucceedsExactly | chat/src/chat_internal.c:114-208 | login succeeds if and only if the name is new or the password is the stored one, the name is not online, and the counter is not 0; what session, store and account then hold |
| ChatAnswers.SeededState | chat/src/chat.c:452-489 | what the server starts with: any valid name and password make an account, except that admin takes the one password; only admin administers; and the one room is general |
| ChatAnswers.NextIdIsFresh | chat/src/chat_internal.c:196-204 | after any run an accepted login gets an id above 0 and above every id in use |
| ChatAnswers.MsgSendExactly | chat/src/chat_msg.c:134-222 | a message reaches exactly the sessions in the sender's room, the sender included, once each; refused exactly for a bad session or outside of a room |
| ChatAnswers.ListExactly | chat/src/chat_room.c:147-239 | a list of rooms has exactly the names of all rooms, a list of users exactly those of the users in the sender's room; nothing changes, and it is refused exactly for a bad session, a bad flag, or users asked for outside of a room |
| ChatAnswers.FileCheckExactly | chat/src/chat_transfer.c:650-693 | a relay may start if and only if the sender is valid and in a room and the online target's permission names the sender |
| ChatAnswers.PromoteExactly | chat/src/chat_admin.c:49-142 | promotion succeeds if and only if an administrator names somebody who is not one; it adds that name only |
| ChatAnswers.DisconnectExactly | chat/src/chat_admin.c:144-250 | a disconnect succeeds if and only if an administrator names an online user; then nothing refers to the target, and nobody else's record changes |
| ChatAnswers.DeleteExactly | chat/src/chat_admin.c:252-366 | a deletion succeeds if and only if an administrator names an existing room |
| ChatRuns.InitEstablishes | chat/src/chat.c:512-629 | the initial state satisfies the invariants of runs |
| ChatRuns.StepKeepsInv | chat/src/chat.c:212-293 | every step of every handler keeps the state invariant, the phases of open handlers, the order of ids and the relay budget |
| ChatRuns.RunKeepsInv | chat/src/chat.c:212-293 | the same after any run |
| ChatRuns.ServerStateAgrees | chat/src/chat_internal.c:185-356 | after any run: session store, sessions, rooms, room store and request tables agree, and private rooms hold only their two users |
| ChatRuns.RelaysNeedAccepts | chat/src/chat_transfer.c:681-727 | after any run the files relayed into a session, finished or under way, are covered by file requests that it accepted |
| ChatRuns.PasswordsNeverChange | chat/src/chat_internal.c:135-176 | accounts are never removed and stored passwords never change |
| ChatRuns.RetiredIdsNeverValidate | chat/src/chat_basic.c:52-60 | an id that was logged out never validates again on any session |
| ChatRuns.LoginCommitStep | chat/src/chat_auth.c:82-101 | the second critical section of a login keeps the invariants of runs whatever ran since the first |
| ChatRuns.DisconnectOtherStep | chat/src/chat_admin.c:204-241 | an administrator's disconnect logs the target out, closes it and keeps the invariants |
| ChatRuns.FileDoneStep | chat/src/chat_transfer.c:700-727 | the end of a relay uses up the permission on success and keeps the invariants |
| ChatProgress.AnythingMayBegin | chat/src/chat.c:732-765 | an idle client may ask for anything, with any arguments, but for the cases that the runs leave out |
| ChatProgress.EveryClientGoesOn | chat/src/chat.c:212-293 | no handler is ever stuck; only the close of a client into which a file is running waits, and then that relay can end |
| ChatServerRuns.LogoutIsStep | chat/src/chat_auth.c:117-172 | opcode_logout on the objects is the step of the runs, with its packets and its effect on the connection |
| ChatServerRuns.MsgSendIsStep | chat/src/chat_msg.c:134-222 | the same for opcode_msg_send |
| ChatServerRuns.RequestIsStep | chat/src/chat_transfer.c:356-452 | the same for opcode_request |
| ChatServerRuns.PromoteIsStep | chat/src/chat_admin.c:49-142 | the same for opcode_promote |
| ChatServerRuns.DeleteIsStep | chat/src/chat_admin.c:252-366 | the same for opcode_delete |
| ChatServerRuns.JoinIsStep | chat/src/chat_room.c:14-145 | the same for opcode_join, with the room that it creates |
| ChatServerRuns.RespondIsStep | chat/src/chat_transfer.c:454-568 | the same for opcode_respond, with the room that it creates; an accepted file request and nothing else is counted |
| ChatServerRuns.DisconnectIsStep | chat/src/chat_admin.c:144-250 | the same for opcode_disconnect |
| ChatServerRuns.LoginBeginIsStep | chat/src/chat_auth.c:33-70 | a login begins with the logout of whoever was logged in on the connection |
| ChatServerRuns.LoginCredsIsStep | chat/src/chat_auth.c:174-229 | login_recv_creds is the second step of a login, which goes on exactly when it succeeds |
| ChatServerRuns.LoginCommitIsStep | chat/src/chat_auth.c:82-107 | the second critical section of opcode_login is the third |
| ChatServerRuns.FileSendIsStep | chat/src/chat_transfer.c:650-693 | the check of opcode_file_send begins a relay, to the session that it found, exactly when it succeeds |
| ChatServerRuns.FileDoneIsStep | chat/src/chat_transfer.c:716-727 | the end of opcode_file_send is the step that ends the relay, and a file that went through is counted |
| ChatServerRuns.ConnectIsStep | chat/src/chat.c:295-388 | chat_client_init brings a new session into the run |
| ChatServerRuns.CloseIsStep | chat/src/chat.c:425-450 | chat_client_free takes the session out of it |
| ChatTransfers.OthersLeaveRelays | chat/src/chat_transfer.c:570-745 | no other handler starts or ends a relay, because a session runs one handler at a time |
| ChatTransfers.OutOrdinary | chat/src/chat_msg.c:16-59 | no handler but the relay sends a file frame, and every payload fits the size field |
| ChatTransfers.HandlerStep | chat/src/chat.c:212-293 | any other handler keeps the order of the file streams, whatever frames it sends in between; which frames those are, and that each arrives, is ChatDelivery.HearsWhatIsTold |
| ChatTransfers.AcquireStep | chat/src/chat_transfer.c:700-701 | taking file_lock keeps the invariants of transfers |
| ChatTransfers.SendStep | chat/src/chat_transfer.c:278-323 | sending one payload keeps them: only the holder of the lock adds to a file stream |
| ChatTransfers.LetGoStep | chat/src/chat_transfer.c:703-714 | letting the lock go, after the last payload or after giving up, keeps them |
| ChatTransfers.FileDoneStep | chat/src/chat_transfer.c:716-727 | the end of opcode_file_send keeps them: a whole file that was sent is now accounted for |
| ChatTransfers.RelaysNeverStuck | chat/src/chat_transfer.c:695-727 | a relay can always go on: it gets the lock, or the holder can send or let go, or it can finish |
| ChatTransferRuns.RunRefines | chat/src/chat_transfer.c:570-745 | a run with its transfers taken apart is a run of ChatRuns |
| ChatTransferRuns.RunInOrder | chat/src/chat_transfer.c:695-714 | any run keeps the invariants of transfers |
| ChatTransferRuns.RelaysDoNotMix | chat/src/chat_transfer.c:700-714 | after any run, whatever the senders send, a client's file stream is the ended relays into it one after another, each in one piece, then what the holder of file_lock has sent; every frame is well-formed |
| ChatTransferRuns.FilesNeedAccepts | chat/src/chat_transfer.c:681-727 | after any run, whatever the senders send, a client has written at most as many files as it accepted file requests |
| ChatTransferRuns.FilesComeFromGrants | chat/src/chat_transfer.c:665-714 | after any run every piece of a client's file stream is the beginning of what a file request towards this client, which passed the check, asked to send |
| ChatTransferRuns.WholeFilesArrive | chat/src/chat_transfer.c:695-727 | after any run in which senders flag their chunks as do_put does, a client that hears its socket has written exactly the completed files sent to it, in order and whole, up to one that ends its listener |
| ChatDelivery.PutAllHeard | chat/src/chat_msg.c:16-59 | of any list of frames each client's stream gets exactly those addressed to it, in order, each as one packet with its flag and payload |
| ChatDelivery.HandlerIsHeard | chat/src/chat_msg.c:16-59 | of every handler a client hears exactly the frames that the handler sends to it, in order |
| ChatDelivery.HearsWhatIsTold | chat/src/chat_msg.c:90-132 | what each handler tells each client, by the state alone: messages and deletions the whole room, requests their target, answers both users, administration its subject, everything else nobody |
| ChatDelivery.MessageIsHeard | chat/src/chat_msg.c:110-128 | a message is heard by exactly those in the sender's room, once each, and a refused one by nobody |
| ChatDelivery.MoveIsHeard | chat/src/chat_transfer.c:278-323 | every move adds to every client's stream exactly what that client hears of it: a handler's packets, the next payload of a relay, its own answer |
| ChatDelivery.TransfersHoldUpNobody | chat/src/chat_transfer.c:695-714 | whatever stage the transfers are in, every other handler may run with any text that fits a packet, and anybody may be answered |
| ChatDelivery.RunIsHeard | chat/src/chat_msg.c:16-132 | over any run the stream of a client that stays is everything it hears of the moves, in their order: nothing is lost, doubled, misdirected or out of order |
| ChatReadable.OutDecodes | chat/src/chat_msg.c:16-59 | every text that the server makes up itself decodes, the names in it included; only messages are as their senders wrote them |
| ChatReadable.ExactlyTheFilesArrive | chat/src/chat_transfer.c:695-727 | the same without a condition on the frames: if what users write decodes, exactly the completed files are written, and the listener survives exactly if no file name ends it |
| ChatServer.Appdata.UserLeave | chat/src/chat_internal.c:318-356 | the objects change exactly as the specification of user_leave says |
| ChatServer.Appdata.UserJoin | chat/src/chat_internal.c:252-316 | the same for user_join, with its answer |
| ChatServer.Appdata.UserLogout | chat/src/chat_internal.c:210-250 | the same for user_logout |
| ChatServer.Appdata.UserLogin | chat/src/chat_internal.c:114-208 | the same for user_login, with the id and the 32-bit increment |
| ChatServer.Appdata.SessionGet | chat/src/chat_internal.c:358-377 | answers the online session of the name, or null exactly when there is none |
| ChatServer.Appdata.CredsValid | chat/src/chat_internal.c:379-451 | the two loops accept exactly the valid usernames and passwords |
| ChatServer.Appdata.LoginCreds | chat/src/chat_auth.c:174-229 | both strings are stored on every outcome, a login that stops here ends with id 0, and the invariant of a logged-out session's state is kept |
| ChatServer.Appdata.LoginCommit | chat/src/chat_auth.c:82-107 | user_login and the store of the id, with FAILURE exactly for id 0; the invariant is kept if and only if it is not an accepted login at a counter of 0 |
| ChatServer.Appdata.OpcodeLogout | chat/src/chat_auth.c:117-172 | state, answer and packets are those of the specification, and the invariant is kept |
| ChatServer.Appdata.MsgSendRoom | chat/src/chat_msg.c:90-132 | the walk over the members sends exactly the specified broadcast |
| ChatServer.Appdata.OpcodeMsgSend | chat/src/chat_msg.c:134-222 | state, answer and packets are those of the specification |
| ChatServer.Appdata.OpcodeList | chat/src/chat_room.c:147-239 | state, answer and packets are those of the specification |
| ChatServer.Appdata.MoveTo | chat/src/chat_room.c:125-131 | leave, assign, join, as specified |
| ChatServer.Appdata.FindRoom | chat/src/chat_room.c:77-87 | the first room of the name in the store |
| ChatServer.Appdata.AddRoom | chat/src/chat_internal.c:22-81 | a fresh room at the end of the store |
| ChatServer.Appdata.SessionValid | chat/src/chat_basic.c:32-64 | true exactly for a logged-in session and its own id |
| ChatServer.Appdata.OpcodeJoin | chat/src/chat_room.c:14-145 | state, answer and packets are those of the specification; the room is a new object or the first one of the name, and the invariant is kept |
| ChatServer.Appdata.SetRequest | chat/src/chat_transfer.c:747-842 | records the request and notifies the target exactly when none is pending |
| ChatServer.Appdata.OpcodeRequest | chat/src/chat_transfer.c:356-452 | state, answer and packets are those of the specification, and the invariant is kept |
| ChatServer.Appdata.PmAccept | chat/src/chat_transfer.c:136-221 | room, moves and JOIN packets in the specified order; the room is a new object, and for two logged-in users the invariant is kept |
| ChatServer.Appdata.Decide | chat/src/chat_transfer.c:948-985 | decline, private accept and file accept as specified; a private room is a new object, pointers stay linked and the invariant is kept |
| ChatServer.Appdata.OpcodeRespond | chat/src/chat_transfer.c:454-568 | state, answer and packets are those of the specification; a private room is a new object, pointers stay linked and the invariant is kept |
| ChatServer.Appdata.FileCheck | chat/src/chat_transfer.c:650-693 | the relay starts exactly when the specification answers success, towards the online session of the name |
| ChatServer.Appdata.FileDone | chat/src/chat_transfer.c:716-727 | a successful relay clears the target's permission, a failed one ends the connection; the invariant is kept |
| ChatServer.Appdata.IsAdmin | chat/src/chat_admin.c:17-47 | true exactly for names in the admin table |
| ChatServer.Appdata.OpcodePromote | chat/src/chat_admin.c:49-142 | state, answer and packets are those of the specification, and the invariant is kept |
| ChatServer.Appdata.OpcodeDisconnect | chat/src/chat_admin.c:144-250 | state, answer and packets are those of the specification, and the invariant is kept |
| ChatServer.Appdata.EmptyRoom | chat/src/chat_admin.c:346-353 | the loop that shrinks the list it walks terminates with it empty and the invariant kept |
| ChatServer.Appdata.DropRoomNamed | chat/src/chat_admin.c:357-357 | the first room of the name leaves the store and is destroyed |
| ChatServer.Appdata.OpcodeDelete | chat/src/chat_admin.c:252-366 | state, answer and packets are those of the specification, and the invariant is kept |
| ChatServer.Appdata.ClientInit | chat/src/chat.c:295-388 | a new session object that is not logged in; the invariant is kept |
| ChatServer.Appdata.ClientFree | chat/src/chat.c:425-450 | the session is logged out and gone; the invariant is kept |
| SocketIO.Socket.RecvAll | sockutil/src/sockutil.c:68-109 | receives exactly size bytes however the stream is cut up, and fails when the stream ends before or a receive fails; on a healthy connection exactly when the stream ends before |
| SocketIO.Socket.SendAll | sockutil/src/sockutil.c:21-66 | sends all of the data, or a beginning of it on failure |
| SocketIO.Socket.Drain | sockutil/src/sockutil.c:111-141 | discards exactly size bytes through a buffer of any positive size, and fails as RecvAll does |
| Wire.FrameEnd | chat/src/chat.c:732-767 | the end of a request lies behind its opcode and on the stream |
| Wire.BareFrame | chat/chat_client.py:595-914 | ping, logout, list and quit end where their packing ends and are read back as meant |
| Wire.TextFrame | chat/chat_client.py:603-637 | echo, message, join, request and the admin commands end where their packing ends and are read back as meant |
| Wire.AnswerFrame | chat/chat_client.py:784-849 | the same for accept and decline |
| Wire.LoginFrame | chat/chat_client.py:559-593 | the same for login |
| Wire.FlagBits | chat/src/chat_transfer.c:325-328 | FIRST and LAST are the two lowest bits of the flags, and the others are ignored |
| Wire.ChunksFrame | chat/chat_client.py:672-702 | the packets of the later chunks of a file end exactly where the scan for the LAST flag ends |
| Wire.PutFrame | chat/chat_client.py:650-702 | a whole file request ends where its packing ends, and its first packet is read back as meant |
| Wire.FrameOfEncode | chat/chat_client.py:559-914 | decoding inverts encoding for every command of the client |
| ChatFraming.DrainFileChunks | chat/src/chat_transfer.c:223-238 | takes exactly the remaining chunks off the stream |
| ChatFraming.RelayChunks | chat/src/chat_transfer.c:293-329 | takes exactly the remaining chunks, relays those before the first that is too long, and succeeds exactly when there is none |
| ChatFraming.FileRelay | chat/src/chat_transfer.c:240-354 | the first payload carries flags, name size, name and data; the rest follow |
| ChatFraming.OpFileSend | chat/src/chat_transfer.c:570-745 | consumes exactly its request whether it is too long, refused, relayed or broken off, and relays exactly when allowed |
| ChatFraming.OpEcho | chat/src/chat_basic.c:132-196 | consumes exactly its request on success, overflow and bad session, and echoes exactly the payload |
| ChatFraming.RecvText | chat/src/chat_msg.c:151-172 | consumes exactly the request and keeps its text unless the packet is too long |
| ChatFraming.RecvAnswer | chat/src/chat_transfer.c:484-510 | the same for opcode_respond |
| ChatFraming.RecvCreds | chat/src/chat_auth.c:190-219 | the same for the two strings of a login |
| ChatFraming.RecvBare | chat/src/chat_basic.c:110-123 | consumes exactly the header of ping, logout and list |
| ChatFraming.RunOnce | chat/src/chat.c:212-293 | one turn consumes exactly one request whatever the verdict, relays exactly the specified payloads and answers with the specified packet; what that packet is, byte by byte, is ChatReplies.AnswerRequest |
| ChatFraming.NextRequest | chat/src/chat.c:231-235 | reading a request off a concatenation leaves the concatenation of the others |
| ChatFraming.ServeAll | chat/src/chat.c:212-293 | any concatenation of requests is consumed exactly, request by request, for every fragmentation and every verdict, and each is seen as it was meant |
| ChatReplies.TooLongIsOverflow | chat/src/chat_msg.c:162-168 | a text, request or answer longer than 4096 bytes is answered with its opcode and 0x03, whatever the verdict |
| ChatReplies.FittingIsDecided | chat/src/chat_basic.c:32-64 | otherwise with 0x02 for a bad session and the handler's code for a good one |
| ChatReplies.EchoAnswer | chat/src/chat_basic.c:132-196 | an echo comes back whole with its size; a bad session answers 0x02 even when the echo is too long, which otherwise answers 0x03, both with size 0 |
| ChatReplies.BareAnswer | chat/src/chat_basic.c:96-224 | quit is answered 0x01, ping and logout by the session check |
| ChatReplies.LoginAnswer | chat/src/chat_auth.c:33-115 | a login that is too long is answered 0x03 and id 0, otherwise with the code and the id that the login gives |
| ChatReplies.PutAnswer | chat/src/chat_transfer.c:570-745 | a file is answered 0x03 when its first packet is too long, 0x02 for a bad session, the code of the check when that fails, and 0x01 when it is relayed |
| ChatReplies.UnknownAnswer | chat/src/chat_basic.c:66-94 | of an unknown opcode one byte is taken and the answer is 0x00, 0x01 |
| ChatReplies.AnswerRequest | chat/src/chat.c:212-293 | every request that a client can pack, in whatever pieces it comes, is taken off the socket exactly and answered with exactly these bytes |
| ChatClient.Slices | chat/chat_client.py:672-675 | the slices are the chunks, with one empty chunk for an empty file |
| ChatClient.ChunksSplit | chat/chat_client.py:672-675 | chunk i is the i-th piece of 512 bytes, and the last is the one that reaches the end |
| ChatClient.DoPut | chat/chat_client.py:650-702 | the joined packets are the encoding of the file request |
| ChatClient.ChunksJoin | chat/chat_client.py:672-675 | joining the chunks gives back the content |
| ChatClient.AfterSlash | chat/chat_client.py:422-422 | the base name begins right after the last slash |
| ChatClient.OpenableExactly | chat/chat_client.py:417-433 | the names that can be opened at all are those other than the empty one and the two names of directories, without a null byte |
| ChatClient.TakeFilesJoin | chat/chat_client.py:417-433 | taking payloads one list after another is taking the joined list |
| ChatClient.TakeTransfer | chat/chat_client.py:417-433 | a whole transfer writes exactly its file whatever the buffer held before, and an aborted one nothing; the listener survives exactly if the name decodes and, for a file that is written, can be opened |
| ChatClient.Reassembly | chat/chat_client.py:417-433 | any sequence of whole and aborted transfers writes exactly the whole ones, in order, each with its own content, up to the first that ends the listener; it survives exactly if none does |
| ChatClient.RelayIsTransfer | chat/src/chat_transfer.c:269-329 | what a relay sends is one transfer, whole exactly when no chunk was too long |
| ChatClient.RelayIsSent | chat/src/chat_transfer.c:240-354 | however the sender sets the flags, a relay sends at least one payload, none too long for a packet, only the last flagged LAST, and goes through exactly when that one is |
| ChatClient.RelayOfChunks | chat/src/chat_transfer.c:293-329 | the relayed data of the later chunks of do_put is their data |
| ChatClient.PutIsTransfer | chat/chat_client.py:650-702 | the relay of a file request is a whole transfer with its name and its content |
| ChatClient.FileArrives | chat/chat_client.py:650-702 | round trip: the target writes the sender's bytes under the base name if and only if names and first chunk fit a packet and the name decodes and can be opened; a relayed file with any other name ends its listener |
| ChatClient.NothingArrivesAtDirectory | chat/chat_client.py:417-433 | a put with the destination out/ is relayed, writes nothing and ends the target's listener |
| ChatListener.MsgSend | chat/src/chat_msg.c:16-59 | header and payload are sent as one frame |
| ChatListener.FrameBytes | chat/src/chat_msg.c:31-53 | the frames of the way back byte by byte |
| ChatListener.AnswerIsFrame | chat/src/chat.c:252-276 | every answer of the server is one frame of the client's format |
| ChatListener.OnlyFilesMatter | chat/chat_client.py:390-439 | frames of other kinds between the pieces of a file do not touch it; the first text that does not decode ends the listener, and nothing after it counts |
| ChatListener.FilesWritten | chat/chat_client.py:390-439 | under any interleaving with other frames exactly the completed transfers are written, up to one that ends the listener, and a beginning of them when a text does not decode; the listener survives exactly if neither happens |
| ChatListener.Client.ReceiveFile | chat/chat_client.py:417-433 | the file branch changes name, buffer, written files and whether the listener goes on as specified, exceptions of decode and open included |
| ChatListener.Client.OpcodeMsgRecv | chat/chat_client.py:390-439 | consumes exactly one pushed message and applies it; a text that does not decode ends the listener |
| ChatListener.Client.OpcodeReply | chat/chat_client.py:245-388 | every decoder consumes exactly one answer and applies it; an echo that does not decode ends the listener |
| ChatListener.Client.Listen | chat/chat_client.py:210-233 | the listener reads frames up to an answer to quit and ends in the state that they call for; unless an exception ended it, it has not lost its place |
| EndToEnd.AnswersAgree | chat/src/chat.c:240-255 | the return code of an answer is the one that the handler of ChatModel gives, for every request that is decided on the server state, logins and lists included; ping and echo are answered by the session check |
| EndToEnd.LoginAnswer | chat/src/chat_auth.c:82-107 | the id in the answer to a login is the one that the session then has: the counter's exactly when credentials, password, session store and counter let the login succeed, which SUCCESS says, and otherwise 0 |
| ChatProtocol.MessageCode | chat/src/chat_msg.c:134-222 | the bytes that answer a message, by the request and the server state alone |
| ChatProtocol.JoinCode | chat/src/chat_room.c:14-145 | the same for a join |
| ChatProtocol.PromoteCode | chat/src/chat_admin.c:49-142 | the same for a promotion |
| ChatProtocol.DisconnectCode | chat/src/chat_admin.c:144-250 | the same for a disconnect |
| ChatProtocol.DeleteCode | chat/src/chat_admin.c:252-366 | the same for a deletion |
| ChatProtocol.RequestCode | chat/src/chat_transfer.c:356-452 | the same for a request: 0x04 exactly when one of its kind is pending at the user |
| ChatProtocol.RespondCode | chat/src/chat_transfer.c:454-568 | the same for an answer: 0x05 exactly when the pending request is not that of the user it names |
| ChatProtocol.ListCode | chat/src/chat_room.c:147-239 | the same for a list |
| ChatProtocol.BareCode | chat/src/chat_basic.c:96-224 | the same for quit, ping, logout and echo |
| ChatProtocol.LoginCode | chat/src/chat_auth.c:33-115 | the same for a login, with the id |
| ChatProtocol.FileCode | chat/src/chat_transfer.c:570-745 | the same for a file as do_put packs it: 0x06 exactly when the user has not accepted one from the sender |
| EndToEnd.PutIsGoodSender | chat/chat_client.py:650-702 | what the relay of a put that fits a packet sends is a sender's payloads as ChatTransfers has them, flagged as WholeFilesArrive asks, with the name and the content of the file |
| EndToEnd.PutFromEndToEnd | chat/chat_client.py:650-702 | one put, packed, received in pieces, checked, answered, relayed to the socket of the session that is online under the name and to no other, and heard there: the answer says what the check says or OVERFLOW, the permission is used up, and the file is written if and only if the check succeeds, the packet fits and the name can be opened |
| EndToEnd.SendPayloads | chat/src/chat_transfer.c:278-323 | the target's socket is given one file frame per payload, in order |
| Utf8.AsciiDecodes | chat/chat_client.py:405-439 | ASCII text decodes |
| Utf8.JoinDecodes | chat/chat_client.py:405-439 | texts that decode may be joined |
| Utf8.EncodedBegins | chat/chat_client.py:405-439 | the UTF-8 form of a character is the first character of whatever it begins |
| Utf8.FirstIsEncoded | chat/chat_client.py:405-439 | what is taken for a first character is the UTF-8 form of some scalar value |
| Utf8.DecodesExactly | chat/chat_client.py:405-439 | a byte string decodes if and only if it is the UTF-8 form of some text |
| Registry.FreeSlot | server/src/registry.c:77-87 | the lowest free slot |
| Registry.Table.Add | server/src/registry.c:60-103 | the client gets the lowest free slot and its index; FULL exactly when there is none |
| Registry.Table.Remove | server/src/registry.c:105-144 | exactly the client's own slot becomes free and its index -1 |
| Registry.Table.Destroy | server/src/registry.c:181-210 | every registered client is destroyed, in slot order, and all slots end free |
| Dispatch.InitIsConsistent | server/src/server.c:39-217 | the empty server satisfies the invariant |
| Dispatch.PollKeeps | server/src/server.c:232-249 | delivering events disarms their clients and keeps the invariant |
| Dispatch.AcceptKeeps | server/src/client.c:78-190 | accepting a client keeps the invariant, also when the registry is full or its setup fails |
| Dispatch.ArmKeeps | server/src/server.c:265-281 | arming a new client keeps the invariant, also when epoll refuses it |
| Dispatch.DropKeeps | server/src/server.c:287-300 | a client that hung up is destroyed by the main thread, which alone holds it |
| Dispatch.EnqueueKeeps | server/src/server.c:302-307 | handing a readable client to the pool keeps the invariant, also when the pool refuses it |
| Dispatch.StartKeeps | tpool/src/tpool.c:349-353 | a worker that takes the client at the head of the queue keeps the invariant |
| Dispatch.FinishKeeps | server/src/client.c:34-76 | whatever the outcome of a run, the invariant is kept; which outcome destroys the client and which arms it again is DispatchSteps.DestroyedExactlyWhen and DispatchSteps.WhoIsArmed |
| Dispatch.SweepKeeps | server/src/registry.c:192-197 | each turn of the loop of registry_destroy keeps the invariant |
| Dispatch.StepKeepsInv | server/src/server.c:219-323 | every step keeps every live client in one place, registered, and the destroyed ones counted once |
| Dispatch.RunKeepsInv | server/src/server.c:219-381 | the same after any run |
| Dispatch.ExactlyOneSpot | server/src/server.c:253-311 | a client is registered exactly when it is in some spot, and then in one spot only |
| Dispatch.NoSharedClient | server/src/client.c:54-72 | in every reachable state no two workers hold the same client, and nobody holds a destroyed one |
| Dispatch.StepOnlyDestroysMore | server/src/client.c:192-254 | destroying is for good |
| Dispatch.SweepDestroysRegistered | server/src/registry.c:192-197 | the sweep ends and destroys what is registered, slot by slot |
| Dispatch.ShutdownFinishes | server/src/server.c:336-345 | from a drained pool shutdown runs to its end and destroys exactly the registered clients |
| Dispatch.DrainTerminates | server/src/server.c:325-345 | while the main thread waits for the pool the workers make exactly the measured number of steps until it is drained, in whatever order, and until then one of them can always make one |
| Dispatch.ShutdownFromLoop | server/src/server.c:325-381 | from the end of the loop on, after those steps, the sweep begins and ends and every client ever accepted has been destroyed exactly once |
| Dispatch.DestroyedExactlyOnce | server/src/server.c:325-381 | after the sweep every accepted client has been destroyed exactly once |
| DispatchSteps.DestroyedExactlyWhen | server/src/client.c:54-72 | a step destroys a client if and only if it hung up, its run failed, epoll refused it, it came while the table was full or its setup failed, or the sweep has come to it |
| DispatchSteps.WhatMoves | server/src/server.c:253-311 | events are handled from the front of the batch, readable clients queued last, and workers take from the front of the queue |
| DispatchSteps.WhoIsNew | server/src/client.c:78-190 | the client just accepted waits to be armed unless it was turned away |
| DispatchSteps.WhoIsArmed | server/src/client.c:256-286 | armed again is exactly who is new, came back well from its run or was refused by the pool; nobody stays armed once an event is delivered |
| DispatchSteps.WhoIsRegistered | server/src/registry.c:60-144 | a slot changes hands only when its client ends, or when it is the lowest free one and a client comes |
| DispatchSteps.KeptClientGoesOn | server/src/server.c:253-311 | a client that a step does not end keeps its slot and is in exactly one spot: new, armed, last in the queue, or with its worker |
| DispatchSteps.LoopGoesOn | server/src/server.c:232-311 | the main thread always goes on, with whatever epoll can deliver and however the calls turn out |
| DispatchSteps.WorkersGoOn | tpool/src/tpool.c:331-380 | a free worker may take a client while there is one, and a busy one may give its client back with any outcome |

## Left out

- Allocation failure and null arguments: allocation succeeds and pointers are valid.
- Real sockets, epoll, signals and pthread internals: sockets are byte streams, locks are atomic steps, condition variables are sets of sleepers.
- A stream that is cut in the middle of a request: the framing theorems are for whole requests. (The handlers ignore the status of `sockutil_recvall`; the model of `RecvAll` itself covers the end of the stream.)
- The race the repository documents (chat/README.md:210): in ChatRuns an administrator does not disconnect a client whose own handler is between two critical sections, or into which a file is being relayed; in Dispatch a client is destroyed only by the thread that holds it.
- A client that quits or hangs up by itself while a file is being relayed into it: ChatRuns and ChatTransfers leave this out too, although the repository does not name it. The relay then works on the session of a client that is gone.
- Server runs beyond 2^32 - 1 logins: the theorems over runs stop there; ChatInvariant.LoginKeepsInvExactly and ChatLimits.NameIsStuckForever say what the next login does.
- ChatServer keeps its tables as maps and its member and room lists as sequences in fields; that the containers behave like maps and sequences is what HashTable and LinkedList prove, and the two are not composed. Aliasing inside the containers is covered there.
- ChatServer's writes of single fields are methods of their own (SetRoom, SetCreds and the like); they correspond to assignments in the source.
- opcode_ping, opcode_quit and opcode_default decide nothing on the server state; only their framing and their answers are modelled. opcode_list changes nothing, so ChatRuns has no step for it; in ChatTransfers its packets are answers.
- ChatFraming takes the outcome of the checks on the server state as parameters instead of calling the handlers of ChatServer; EndToEnd says what they are for the state in which the request is decided, and ChatProtocol what is answered then.
- The handlers' framing is for healthy connections, on which a receive fails only at the end of the stream; the model of RecvAll and Drain covers other errors.
- ChatTransferRuns.WholeFilesArrive: requires that senders flag the first chunk of a file, and no other, FIRST, as do_put does (EndToEnd.PutIsGoodSender); RelaysDoNotMix, FilesNeedAccepts and FilesComeFromGrants are for any flags.
- The client's command line, prompt, argument parsing and printing. Of the failures to write a file those that its name alone decides are modelled; a name too long for the file system, one that names an existing directory, missing permissions and a full disk are not.
- HashTable and the containers: user-supplied hash, compare and destroy callbacks beyond the installed ones; ht_destroy and sll_destroy; display functions.
- LinkedList.Sll.Insert: node memory is not reclaimed in the model, so use after free is not a topic here.
- The echo server and client, which repeat the framing on a smaller scale, and all main programs and makefiles.
