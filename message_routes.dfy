/**
  Direct messages: sending, the caller's conversation list (one entry per
  counterpart and job, folded from the caller's messages newest first), the
  thread with one user, the unread counter and the read flags.
*/
module MessageRoutes {
  import opened Wrappers
  import opened Domain
  import opened Seqs
  import opened Database

  const MissingFields := "Receiver and content are required."
  const InternalError := "Internal server error."

  /** The caller sent or received the message. */
  function Involves(caller: Id): Message -> bool
  {
    (m: Message) => m.senderId == caller || m.receiverId == caller
  }

  /** The other party of a message, seen from the caller (the receiver when the caller sent it). */
  function Other(m: Message, caller: Id): Id
  {
    if m.senderId == caller then m.receiverId else m.senderId
  }

  /** What groups messages into one conversation: the counterpart and the job, if any. */
  datatype Key = Key(other: Id, job: Option<Id>)

  function KeyOf(m: Message, caller: Id): Key
  {
    Key(Other(m, caller), m.jobId)
  }

  function InGroup(caller: Id, key: Key): Message -> bool
  {
    (m: Message) => KeyOf(m, caller) == key
  }

  /** Received by the caller and not read yet. */
  function UnreadBy(caller: Id): Message -> bool
  {
    (m: Message) => m.receiverId == caller && !m.read
  }

  function UnreadInGroup(caller: Id, key: Key): Message -> bool
  {
    (m: Message) => KeyOf(m, caller) == key && m.receiverId == caller && !m.read
  }

  /** An entry of the conversation list. */
  datatype Conversation = Conversation(key: Key, lastMessage: Message, unreadCount: nat)

  function Keys(convs: seq<Conversation>): set<Key>
  {
    set c | c in convs :: c.key
  }

  function SumUnread(convs: seq<Conversation>): nat
  {
    if convs == [] then 0 else SumUnread(convs[..|convs| - 1]) + convs[|convs| - 1].unreadCount
  }

  /** Incrementing one entry's counter increments the sum by one. */
  lemma {:induction false} SumUnreadBump(convs: seq<Conversation>, j: nat)
    requires j < |convs|
    ensures SumUnread(convs[j := convs[j].(unreadCount := convs[j].unreadCount + 1)]) == SumUnread(convs) + 1
  {
    var bumped := convs[j := convs[j].(unreadCount := convs[j].unreadCount + 1)];
    var n := |convs| - 1;
    if j == n {
      assert bumped[..n] == convs[..n];
    } else {
      SumUnreadBump(convs[..n], j);
      assert bumped[..n] == convs[..n][j := convs[j].(unreadCount := convs[j].unreadCount + 1)];
    }
  }

  /**
    The map from keys to entry positions (`conversationsMap`): it holds
    exactly the entries' keys, each pointing at its own entry.
  */
  ghost predicate Indexed(convs: seq<Conversation>, index: map<Key, nat>)
  {
    && (forall k :: k in index ==> index[k] < |convs| && convs[index[k]].key == k)
    && (forall i :: 0 <= i < |convs| ==> convs[i].key in index && index[convs[i].key] == i)
  }

  /**
    After the first `seen` messages: every key seen has an entry, and each
    entry holds the first message of its group, entries in the order their
    keys were first seen. `firsts` records those first positions.
  */
  ghost predicate FirstSeen(ms: seq<Message>, caller: Id, seen: nat, convs: seq<Conversation>,
                            index: map<Key, nat>, firsts: seq<nat>)
  {
    && seen <= |ms|
    && |firsts| == |convs|
    && (forall j :: 0 <= j < seen ==> KeyOf(ms[j], caller) in index)
    && (forall i {:trigger firsts[i]} :: 0 <= i < |convs| ==>
          firsts[i] < seen && convs[i].lastMessage == ms[firsts[i]] && KeyOf(ms[firsts[i]], caller) == convs[i].key)
    && (forall i, j {:trigger firsts[i], KeyOf(ms[j], caller)} :: 0 <= i < |convs| && 0 <= j < firsts[i] ==>
          KeyOf(ms[j], caller) != convs[i].key)
    && (forall i, j :: 0 <= i < j < |convs| ==> firsts[i] < firsts[j])
  }

  /** The counters hold the unread messages among the first `counted` messages. */
  ghost predicate Counted(ms: seq<Message>, caller: Id, counted: nat, convs: seq<Conversation>)
  {
    && counted <= |ms|
    && (forall i :: 0 <= i < |convs| ==> convs[i].unreadCount == |Filter(ms[..counted], UnreadInGroup(caller, convs[i].key))|)
    && SumUnread(convs) == |Filter(ms[..counted], UnreadBy(caller))|
  }

  /** A message with a new key opens an entry holding it, at the next position. */
  lemma OpenEntry(ms: seq<Message>, caller: Id, n: nat, convs: seq<Conversation>, index: map<Key, nat>, firsts: seq<nat>)
    requires Indexed(convs, index) && FirstSeen(ms, caller, n, convs, index, firsts) && n < |ms|
    requires KeyOf(ms[n], caller) !in index
    ensures var c := Conversation(KeyOf(ms[n], caller), ms[n], 0);
      && Indexed(convs + [c], index[c.key := |convs|])
      && FirstSeen(ms, caller, n + 1, convs + [c], index[c.key := |convs|], firsts + [n])
  {
    var c := Conversation(KeyOf(ms[n], caller), ms[n], 0);
    var convs', index', firsts' := convs + [c], index[c.key := |convs|], firsts + [n];
    forall i | 0 <= i < |convs'| ensures convs'[i].key in index' && index'[convs'[i].key] == i {
      if i < |convs| {
        assert convs'[i] == convs[i];
      }
    }
    forall i, j | 0 <= i < |convs'| && 0 <= j < firsts'[i] ensures KeyOf(ms[j], caller) != convs'[i].key {
      if i < |convs| {
        assert convs'[i] == convs[i];
      }
    }
  }

  /** A new entry starts from a zero counter, which is right since no earlier message has its key. */
  lemma OpenCounted(ms: seq<Message>, caller: Id, n: nat, convs: seq<Conversation>, m: Message)
    requires Counted(ms, caller, n, convs)
    requires forall j :: 0 <= j < n ==> KeyOf(ms[j], caller) != KeyOf(m, caller)
    ensures Counted(ms, caller, n, convs + [Conversation(KeyOf(m, caller), m, 0)])
  {
    var convs' := convs + [Conversation(KeyOf(m, caller), m, 0)];
    forall j | 0 <= j < n ensures !UnreadInGroup(caller, KeyOf(m, caller))(ms[..n][j]) {
      assert ms[..n][j] == ms[j];
    }
    FilterNone(ms[..n], UnreadInGroup(caller, KeyOf(m, caller)));
    assert convs'[..|convs|] == convs;
  }

  /** A message the caller received unread bumps its entry's counter. */
  lemma CountUnread(ms: seq<Message>, caller: Id, n: nat, convs: seq<Conversation>, index: map<Key, nat>)
    requires Indexed(convs, index) && Counted(ms, caller, n, convs) && n < |ms|
    requires KeyOf(ms[n], caller) in index && ms[n].receiverId == caller && !ms[n].read
    ensures var i := index[KeyOf(ms[n], caller)];
      Counted(ms, caller, n + 1, convs[i := convs[i].(unreadCount := convs[i].unreadCount + 1)])
  {
    var i := index[KeyOf(ms[n], caller)];
    UnreadPrefixGrows(ms, caller, n);
    SumUnreadBump(convs, i);
    IndexedPosition(convs, index, KeyOf(ms[n], caller));
    CountUnreadEntries(ms, caller, n, convs, i);
  }

  /** One more unread message to the caller adds one to the count over the prefix. */
  lemma UnreadPrefixGrows(ms: seq<Message>, caller: Id, n: nat)
    requires n < |ms| && ms[n].receiverId == caller && !ms[n].read
    ensures |Filter(ms[..n + 1], UnreadBy(caller))| == |Filter(ms[..n], UnreadBy(caller))| + 1
  {
    assert ms[..n + 1][..n] == ms[..n];
  }

  /** The entry `index` names for a key is the only entry with that key. */
  lemma IndexedPosition(convs: seq<Conversation>, index: map<Key, nat>, key: Key)
    requires Indexed(convs, index) && key in index
    ensures forall j :: 0 <= j < |convs| ==> (convs[j].key == key <==> j == index[key])
  {
  }

  lemma CountUnreadEntries(ms: seq<Message>, caller: Id, n: nat, convs: seq<Conversation>, i: nat)
    requires n < |ms| && i < |convs|
    requires forall j :: 0 <= j < |convs| ==> convs[j].unreadCount == |Filter(ms[..n], UnreadInGroup(caller, convs[j].key))|
    requires forall j :: 0 <= j < |convs| ==> (convs[j].key == KeyOf(ms[n], caller) <==> j == i)
    requires ms[n].receiverId == caller && !ms[n].read
    ensures var bumped := convs[i := convs[i].(unreadCount := convs[i].unreadCount + 1)];
      forall j :: 0 <= j < |bumped| ==> bumped[j].unreadCount == |Filter(ms[..n + 1], UnreadInGroup(caller, bumped[j].key))|
  {
    assert ms[..n + 1][..n] == ms[..n];
  }

  /** Any other message leaves the counters as they are. */
  lemma CountRead(ms: seq<Message>, caller: Id, n: nat, convs: seq<Conversation>)
    requires Counted(ms, caller, n, convs) && n < |ms|
    requires !(ms[n].receiverId == caller && !ms[n].read)
    ensures Counted(ms, caller, n + 1, convs)
  {
    assert ms[..n + 1][..n] == ms[..n];
  }

  /** A message whose key already has an entry opens nothing. */
  lemma SeeKnownKey(ms: seq<Message>, caller: Id, n: nat, convs: seq<Conversation>, index: map<Key, nat>, firsts: seq<nat>)
    requires FirstSeen(ms, caller, n, convs, index, firsts) && n < |ms|
    requires KeyOf(ms[n], caller) in index
    ensures FirstSeen(ms, caller, n + 1, convs, index, firsts)
  {
  }

  /** Bumping a counter moves no entry. */
  lemma BumpEntry(ms: seq<Message>, caller: Id, n: nat, convs: seq<Conversation>, index: map<Key, nat>, firsts: seq<nat>, i: nat)
    requires Indexed(convs, index) && FirstSeen(ms, caller, n, convs, index, firsts) && i < |convs|
    ensures var bumped := convs[i := convs[i].(unreadCount := convs[i].unreadCount + 1)];
      Indexed(bumped, index) && FirstSeen(ms, caller, n, bumped, index, firsts)
  {
  }

  /** `conversationsMap.get(key).unreadCount++` on entry `i`. */
  function Bump(convs: seq<Conversation>, i: nat): seq<Conversation>
    requires i < |convs|
  {
    convs[i := convs[i].(unreadCount := convs[i].unreadCount + 1)]
  }

  /** The loop invariant of the fold after `n` messages. */
  ghost predicate Inv(ms: seq<Message>, caller: Id, n: nat, convs: seq<Conversation>, index: map<Key, nat>, firsts: seq<nat>)
  {
    Indexed(convs, index) && FirstSeen(ms, caller, n, convs, index, firsts) && Counted(ms, caller, n, convs)
  }

  /** Before the first message: no entries, nothing counted. */
  lemma FoldStart(ms: seq<Message>, caller: Id)
    ensures Inv(ms, caller, 0, [], map[], [])
  {
    assert ms[..0] == [];
  }

  /** One step of the fold on a message whose key is new. */
  lemma StepNewKey(ms: seq<Message>, caller: Id, n: nat, convs: seq<Conversation>, index: map<Key, nat>, firsts: seq<nat>)
    requires Inv(ms, caller, n, convs, index, firsts) && n < |ms|
    requires KeyOf(ms[n], caller) !in index
    ensures var grown := convs + [Conversation(KeyOf(ms[n], caller), ms[n], 0)];
      Inv(ms, caller, n + 1,
          if ms[n].receiverId == caller && !ms[n].read then Bump(grown, |convs|) else grown,
          index[KeyOf(ms[n], caller) := |convs|], firsts + [n])
  {
    if ms[n].receiverId == caller && !ms[n].read {
      StepNewUnread(ms, caller, n, convs, index, firsts);
    } else {
      var grown := convs + [Conversation(KeyOf(ms[n], caller), ms[n], 0)];
      OpenEntry(ms, caller, n, convs, index, firsts);
      OpenCounted(ms, caller, n, convs, ms[n]);
      CountRead(ms, caller, n, grown);
    }
  }

  /** The step on a new key when the caller received the message unread: the new entry starts at one. */
  lemma StepNewUnread(ms: seq<Message>, caller: Id, n: nat, convs: seq<Conversation>, index: map<Key, nat>, firsts: seq<nat>)
    requires Inv(ms, caller, n, convs, index, firsts) && n < |ms|
    requires KeyOf(ms[n], caller) !in index && ms[n].receiverId == caller && !ms[n].read
    ensures Inv(ms, caller, n + 1, Bump(convs + [Conversation(KeyOf(ms[n], caller), ms[n], 0)], |convs|),
                index[KeyOf(ms[n], caller) := |convs|], firsts + [n])
  {
    var key := KeyOf(ms[n], caller);
    var grown := convs + [Conversation(key, ms[n], 0)];
    var index', firsts' := index[key := |convs|], firsts + [n];
    var bumped := Bump(grown, |convs|);
    assert Indexed(bumped, index') && FirstSeen(ms, caller, n + 1, bumped, index', firsts') by {
      OpenEntry(ms, caller, n, convs, index, firsts);
      BumpEntry(ms, caller, n + 1, grown, index', firsts', |convs|);
    }
    assert Counted(ms, caller, n + 1, bumped) by {
      OpenEntry(ms, caller, n, convs, index, firsts);
      OpenCounted(ms, caller, n, convs, ms[n]);
      CountUnread(ms, caller, n, grown, index');
    }
  }

  /** One step of the fold on a message whose key already has an entry. */
  lemma StepKnownKey(ms: seq<Message>, caller: Id, n: nat, convs: seq<Conversation>, index: map<Key, nat>, firsts: seq<nat>)
    requires Inv(ms, caller, n, convs, index, firsts) && n < |ms|
    requires KeyOf(ms[n], caller) in index
    ensures index[KeyOf(ms[n], caller)] < |convs|
    ensures Inv(ms, caller, n + 1,
                if ms[n].receiverId == caller && !ms[n].read then Bump(convs, index[KeyOf(ms[n], caller)]) else convs,
                index, firsts)
  {
    if ms[n].receiverId == caller && !ms[n].read {
      StepKnownUnread(ms, caller, n, convs, index, firsts);
    } else {
      SeeKnownKey(ms, caller, n, convs, index, firsts);
      CountRead(ms, caller, n, convs);
    }
  }

  /** The step on a known key when the caller received the message unread: that entry's counter goes up. */
  lemma StepKnownUnread(ms: seq<Message>, caller: Id, n: nat, convs: seq<Conversation>, index: map<Key, nat>, firsts: seq<nat>)
    requires Inv(ms, caller, n, convs, index, firsts) && n < |ms|
    requires KeyOf(ms[n], caller) in index && ms[n].receiverId == caller && !ms[n].read
    ensures index[KeyOf(ms[n], caller)] < |convs|
    ensures Inv(ms, caller, n + 1, Bump(convs, index[KeyOf(ms[n], caller)]), index, firsts)
  {
    SeeKnownKey(ms, caller, n, convs, index, firsts);
    CountUnread(ms, caller, n, convs, index);
    BumpEntry(ms, caller, n + 1, convs, index, firsts, index[KeyOf(ms[n], caller)]);
  }

  /** What the fold promises once every message has been seen and counted. */
  lemma FoldDone(ms: seq<Message>, caller: Id, convs: seq<Conversation>, index: map<Key, nat>, firsts: seq<nat>)
    requires Inv(ms, caller, |ms|, convs, index, firsts)
    ensures forall i, j :: 0 <= i < j < |convs| ==> convs[i].key != convs[j].key
    ensures Keys(convs) == set m | m in ms :: KeyOf(m, caller)
    ensures forall i :: 0 <= i < |convs| ==>
      && Find(ms, InGroup(caller, convs[i].key)).Some?
      && convs[i].lastMessage == ms[Find(ms, InGroup(caller, convs[i].key)).value]
    ensures forall i, j :: 0 <= i < j < |convs| ==>
      Find(ms, InGroup(caller, convs[i].key)).value < Find(ms, InGroup(caller, convs[j].key)).value
    ensures forall i :: 0 <= i < |convs| ==> convs[i].unreadCount == |Filter(ms, UnreadInGroup(caller, convs[i].key))|
    ensures SumUnread(convs) == |Filter(ms, UnreadBy(caller))|
  {
    FoldKeys(ms, caller, convs, index, firsts);
    FoldFirsts(ms, caller, convs, index, firsts);
    assert ms[..|ms|] == ms;
  }

  /** Once every message is seen, the entries' keys are distinct and are exactly the messages' keys. */
  lemma FoldKeys(ms: seq<Message>, caller: Id, convs: seq<Conversation>, index: map<Key, nat>, firsts: seq<nat>)
    requires Indexed(convs, index) && FirstSeen(ms, caller, |ms|, convs, index, firsts)
    ensures forall i, j :: 0 <= i < j < |convs| ==> convs[i].key != convs[j].key
    ensures Keys(convs) == set m | m in ms :: KeyOf(m, caller)
  {
    forall k | k in set m | m in ms :: KeyOf(m, caller) ensures k in Keys(convs) {
      var m :| m in ms && KeyOf(m, caller) == k;
      var j :| 0 <= j < |ms| && ms[j] == m;
      assert convs[index[k]] in convs;
    }
    forall k | k in Keys(convs) ensures k in set m | m in ms :: KeyOf(m, caller) {
      var i :| 0 <= i < |convs| && convs[i].key == k;
      assert firsts[i] < |ms| && ms[firsts[i]] in ms;
    }
  }

  /** Once every message is seen, each entry sits at the first message of its group. */
  lemma FoldFirsts(ms: seq<Message>, caller: Id, convs: seq<Conversation>, index: map<Key, nat>, firsts: seq<nat>)
    requires FirstSeen(ms, caller, |ms|, convs, index, firsts)
    ensures forall i :: 0 <= i < |convs| ==> Find(ms, InGroup(caller, convs[i].key)) == Some(firsts[i])
    ensures forall i :: 0 <= i < |convs| ==> convs[i].lastMessage == ms[firsts[i]]
    ensures forall i, j :: 0 <= i < j < |convs| ==> firsts[i] < firsts[j]
  {
    forall i | 0 <= i < |convs| ensures Find(ms, InGroup(caller, convs[i].key)) == Some(firsts[i]) {
      assert firsts[i] < |ms|;
      FindFirst(ms, InGroup(caller, convs[i].key), firsts[i]);
    }
  }

  /**
    The body of the `forEach` callback for the `n`-th message: a new key
    opens an entry holding the message with a zero counter, and a message the
    caller received and has not read bumps its entry's counter.
  */
  method Visit(ms: seq<Message>, caller: Id, n: nat, convs: seq<Conversation>, index: map<Key, nat>, ghost firsts: seq<nat>)
    returns (convs': seq<Conversation>, index': map<Key, nat>, ghost firsts': seq<nat>)
    requires Inv(ms, caller, n, convs, index, firsts) && n < |ms|
    ensures Inv(ms, caller, n + 1, convs', index', firsts')
  {
    convs', index', firsts' := convs, index, firsts;
    var m := ms[n];
    var key := KeyOf(m, caller);
    if key !in index' {
      StepNewKey(ms, caller, n, convs', index', firsts');
      index' := index'[key := |convs'|];
      convs' := convs' + [Conversation(key, m, 0)];
      firsts' := firsts' + [n];
    } else {
      StepKnownKey(ms, caller, n, convs', index', firsts');
    }
    if m.receiverId == caller && !m.read {
      convs' := Bump(convs', index'[key]);
    }
  }

  /**
    The `forEach` over the caller's messages, in the order given. Entries
    come out in the order their keys are first seen, each holding the first
    message of its group and the number of group messages the caller
    received and has not read.
  */
  method BuildConversations(ms: seq<Message>, caller: Id) returns (convs: seq<Conversation>)
    ensures forall i, j :: 0 <= i < j < |convs| ==> convs[i].key != convs[j].key
    ensures Keys(convs) == set m | m in ms :: KeyOf(m, caller)
    ensures forall i :: 0 <= i < |convs| ==>
      && Find(ms, InGroup(caller, convs[i].key)).Some?
      && convs[i].lastMessage == ms[Find(ms, InGroup(caller, convs[i].key)).value]
    ensures forall i, j :: 0 <= i < j < |convs| ==>
      Find(ms, InGroup(caller, convs[i].key)).value < Find(ms, InGroup(caller, convs[j].key)).value
    ensures forall i :: 0 <= i < |convs| ==> convs[i].unreadCount == |Filter(ms, UnreadInGroup(caller, convs[i].key))|
    ensures SumUnread(convs) == |Filter(ms, UnreadBy(caller))|
  {
    convs := [];
    var index: map<Key, nat> := map[];
    ghost var firsts: seq<nat> := [];
    var n: nat := 0;
    FoldStart(ms, caller);
    while n < |ms|
      invariant n <= |ms|
      invariant Inv(ms, caller, n, convs, index, firsts)
    {
      convs, index, firsts := Visit(ms, caller, n, convs, index, firsts);
      n := n + 1;
    }
    FoldDone(ms, caller, convs, index, firsts);
  }

  /** In a newest-first list, the first message of a group is the newest of the group. */
  lemma FirstOfGroupIsNewest(ms: seq<Message>, caller: Id, key: Key)
    requires Descending(ms, MessageStamp)
    requires Find(ms, InGroup(caller, key)).Some?
    ensures forall m :: m in ms && KeyOf(m, caller) == key ==>
      m.createdAt <= ms[Find(ms, InGroup(caller, key)).value].createdAt
  {
    var first := Find(ms, InGroup(caller, key)).value;
    forall j | 0 <= j < |ms| && KeyOf(ms[j], caller) == key ensures ms[j].createdAt <= ms[first].createdAt {
      assert InGroup(caller, key)(ms[j]);
      if first < j {
        assert MessageStamp(ms[first]) > MessageStamp(ms[j]);
      }
    }
    forall m | m in ms && KeyOf(m, caller) == key ensures m.createdAt <= ms[first].createdAt {
      var j :| 0 <= j < |ms| && ms[j] == m;
    }
  }

  /** The messages one group counts as unread are among the caller's messages. */
  lemma UnreadInvolves(table: seq<Message>, caller: Id, key: Key)
    ensures |Filter(Reverse(Filter(table, Involves(caller))), UnreadInGroup(caller, key))|
         == |Filter(table, UnreadInGroup(caller, key))|
    ensures |Filter(Reverse(Filter(table, Involves(caller))), UnreadBy(caller))| == |Filter(table, UnreadBy(caller))|
  {
    FilterReverse(Filter(table, Involves(caller)), UnreadInGroup(caller, key));
    FilterNarrow(table, Involves(caller), UnreadInGroup(caller, key));
    FilterReverse(Filter(table, Involves(caller)), UnreadBy(caller));
    FilterNarrow(table, Involves(caller), UnreadBy(caller));
  }

  /**
    What the conversation list promises over `messages`: one entry per
    distinct (counterpart, job) among the messages the caller sent or
    received; each holds the newest message of its group and the number of
    group messages the caller received and has not read; the entries are
    ordered newest conversation first, and their counters add up to the
    caller's unread count.
  */
  ghost predicate ConversationList(messages: seq<Message>, caller: Id, convs: seq<Conversation>)
  {
    && (forall i, j :: 0 <= i < j < |convs| ==> convs[i].key != convs[j].key)
    && Keys(convs) == (set m | m in messages && Involves(caller)(m) :: KeyOf(m, caller))
    && (forall i :: 0 <= i < |convs| ==>
          && convs[i].lastMessage in messages && Involves(caller)(convs[i].lastMessage)
          && KeyOf(convs[i].lastMessage, caller) == convs[i].key
          && (forall m :: m in messages && Involves(caller)(m) && KeyOf(m, caller) == convs[i].key ==>
                m.createdAt <= convs[i].lastMessage.createdAt))
    && (forall i :: 0 <= i < |convs| ==> convs[i].unreadCount == |Filter(messages, UnreadInGroup(caller, convs[i].key))|)
    && (forall i, j :: 0 <= i < j < |convs| ==> convs[i].lastMessage.createdAt > convs[j].lastMessage.createdAt)
    && SumUnread(convs) == |Filter(messages, UnreadBy(caller))|
  }

  /** `GET /messages` without `participantId`: the caller's conversations. */
  method ListConversations(db: Store, caller: Id) returns (convs: seq<Conversation>)
    requires db.Valid()
    ensures ConversationList(db.messages, caller, convs)
  {
    var mine := Filter(db.messages, Involves(caller));
    var ms := Reverse(mine);
    FilterAscending(db.messages, Involves(caller), MessageStamp);
    ReverseDescending(mine, MessageStamp);
    convs := BuildConversations(ms, caller);
    forall m ensures m in ms <==> m in db.messages && Involves(caller)(m) {
      ReverseMembers(mine, m);
      if m in db.messages && Involves(caller)(m) {
        FilterKeeps(db.messages, Involves(caller), m);
      }
    }
    forall i | 0 <= i < |convs|
      ensures convs[i].unreadCount == |Filter(db.messages, UnreadInGroup(caller, convs[i].key))|
      ensures forall m :: m in db.messages && Involves(caller)(m) && KeyOf(m, caller) == convs[i].key ==>
            m.createdAt <= convs[i].lastMessage.createdAt
    {
      UnreadInvolves(db.messages, caller, convs[i].key);
      FirstOfGroupIsNewest(ms, caller, convs[i].key);
    }
    UnreadInvolves(db.messages, caller, Key(caller, None));
  }

  /** The exchange between the caller and `other`, both directions, restricted to `job` when given. */
  function Between(caller: Id, other: Id, job: Option<Id>): Message -> bool
  {
    (m: Message) =>
      && (job.Some? ==> m.jobId == job)
      && ((m.senderId == caller && m.receiverId == other) || (m.senderId == other && m.receiverId == caller))
  }

  /** What a thread fetch marks read: unread messages from `other` to the caller, within `job` when given. */
  function ReadScope(caller: Id, other: Id, job: Option<Id>): Message -> bool
  {
    (m: Message) => m.senderId == other && m.receiverId == caller && (job.Some? ==> m.jobId == job) && !m.read
  }

  function MarkRead(): Message -> Message
  {
    (m: Message) => m.(read := true)
  }

  /** `GET /messages` answers with a thread or with the conversation list. */
  datatype Inbox = Thread(messages: seq<Message>) | Conversations(list: seq<Conversation>)

  /**
    `GET /messages`: with a truthy `participantId` the thread with that user
    (oldest first, optionally restricted to a job, read flags untouched);
    without one, the conversation list.
  */
  method GetMessages(db: Store, caller: Id, rawJobId: string, participantId: string) returns (r: Inbox)
    requires db.Valid()
    ensures participantId != "" ==>
      && r == Thread(Filter(db.messages, Between(caller, participantId, OptionalId(rawJobId))))
      && Ascending(r.messages, MessageStamp)
    ensures participantId == "" ==>
      && r.Conversations?
      && ConversationList(db.messages, caller, r.list)
  {
    if participantId != "" {
      var thread := Filter(db.messages, Between(caller, participantId, OptionalId(rawJobId)));
      FilterAscending(db.messages, Between(caller, participantId, OptionalId(rawJobId)), MessageStamp);
      return Thread(thread);
    }
    var convs := ListConversations(db, caller);
    r := Conversations(convs);
  }

  /** `GET /messages/unread-count`: the messages the caller received and has not read. */
  method UnreadCount(db: Store, caller: Id) returns (count: nat)
    requires db.Valid()
    ensures count == |Filter(db.messages, UnreadBy(caller))|
    ensures count == 0 <==> forall m :: m in db.messages ==> m.receiverId != caller || m.read
  {
    count := |Filter(db.messages, UnreadBy(caller))|;
    FilterEmpty(db.messages, UnreadBy(caller));
  }

  /**
    `POST /messages`: 400 when the receiver or the content is missing or
    empty; otherwise one unread message from the caller, tied to the job when
    a truthy job id is given. The receiver and job are not looked up.
  */
  method Send(db: Store, caller: Id, receiverId: Id, rawJobId: string, content: string, newId: Id)
    returns (reply: Reply<Message>)
    requires db.Valid()
    requires newId !in KeySet(db.messages, IdOfMessage)
    modifies db
    ensures db.Valid()
    ensures (receiverId == "" || content == "") <==> reply == Fail(400, MissingFields)
    ensures reply.Ok? <==> receiverId != "" && content != ""
    ensures reply.Fail? ==> unchanged(db)
    ensures reply.Ok? ==>
      && reply == Ok(201, Message(newId, caller, receiverId, OptionalId(rawJobId), content, false, old(db.clock)))
      && db.messages == old(db.messages) + [reply.value]
      && db.jobs == old(db.jobs) && db.applications == old(db.applications)
  {
    if receiverId == "" || content == "" {
      return Fail(400, MissingFields);
    }
    var message := Message(newId, caller, receiverId, OptionalId(rawJobId), content, false, db.clock);
    InsertRow(db.messages, message, IdOfMessage, MessageStamp, db.clock);
    TableLater(db.jobs, IdOfJob, JobStamp, db.clock, db.clock + 1);
    TableLater(db.applications, IdOfApplication, ApplicationStamp, db.clock, db.clock + 1);
    db.messages := db.messages + [message];
    db.clock := db.clock + 1;
    reply := Ok(201, message);
  }

  /**
    `GET /messages/:userId`: the thread with `other` as it was, then every
    unread message from `other` to the caller (within the job, when given)
    is marked read.
  */
  method FetchThread(db: Store, caller: Id, other: Id, rawJobId: string) returns (thread: seq<Message>)
    requires db.Valid()
    modifies db
    ensures db.Valid()
    ensures thread == Filter(old(db.messages), Between(caller, other, OptionalId(rawJobId)))
    ensures Ascending(thread, MessageStamp)
    ensures db.messages == UpdateWhere(old(db.messages), ReadScope(caller, other, OptionalId(rawJobId)), MarkRead())
    ensures db.jobs == old(db.jobs) && db.applications == old(db.applications) && db.clock == old(db.clock)
  {
    var job := OptionalId(rawJobId);
    thread := Filter(db.messages, Between(caller, other, job));
    FilterAscending(db.messages, Between(caller, other, job), MessageStamp);
    UpdateRows(db.messages, ReadScope(caller, other, job), MarkRead(), IdOfMessage, MessageStamp, db.clock);
    db.messages := UpdateWhere(db.messages, ReadScope(caller, other, job), MarkRead());
  }

  /**
    After a thread fetch nothing from `other` to the caller in scope is
    unread, and every message not sent by `other` is as it was.
  */
  lemma ThreadFetchLeavesNoneUnread(ms: seq<Message>, caller: Id, other: Id, job: Option<Id>)
    ensures var after := UpdateWhere(ms, ReadScope(caller, other, job), MarkRead());
      && (forall m :: m in after && m.senderId == other && m.receiverId == caller && (job.Some? ==> m.jobId == job) ==> m.read)
      && (forall k :: 0 <= k < |ms| && ms[k].senderId != other ==> after[k] == ms[k])
      && (forall k :: 0 <= k < |ms| ==> after[k].id == ms[k].id && after[k].content == ms[k].content)
  {
    var after := UpdateWhere(ms, ReadScope(caller, other, job), MarkRead());
    forall m | m in after && m.senderId == other && m.receiverId == caller && (job.Some? ==> m.jobId == job)
      ensures m.read
    {
      var k :| 0 <= k < |after| && after[k] == m;
      assert after[k] == if ReadScope(caller, other, job)(ms[k]) then ms[k].(read := true) else ms[k];
    }
  }

  /** A thread fetch lowers the caller's unread count by exactly the number of messages it marks. */
  lemma {:induction false} ThreadFetchUnreadCount(ms: seq<Message>, caller: Id, other: Id, job: Option<Id>)
    ensures |Filter(UpdateWhere(ms, ReadScope(caller, other, job), MarkRead()), UnreadBy(caller))|
          + |Filter(ms, ReadScope(caller, other, job))|
         == |Filter(ms, UnreadBy(caller))|
  {
    if ms != [] {
      var n := |ms| - 1;
      var after := UpdateWhere(ms, ReadScope(caller, other, job), MarkRead());
      assert after[..n] == UpdateWhere(ms[..n], ReadScope(caller, other, job), MarkRead());
      ThreadFetchUnreadCount(ms[..n], caller, other, job);
    }
  }

  /** Marking read changes no id or stamp, so the store stays consistent. */
  lemma MarkReadKeepsConsistent(jobs: seq<Job>, apps: seq<Application>, messages: seq<Message>, clock: int, p: Message -> bool)
    requires Consistent(jobs, apps, messages, clock)
    ensures Consistent(jobs, apps, UpdateWhere(messages, p, MarkRead()), clock)
  {
    UpdateRows(messages, p, MarkRead(), IdOfMessage, MessageStamp, clock);
  }

  /**
    `PUT /messages/:id/read`: the message with that id is marked read when
    the caller is its receiver (204). Otherwise the update finds no row, the
    database raises, and the handler answers 500 with nothing changed.
  */
  method MarkOneRead(db: Store, caller: Id, messageId: Id) returns (reply: Reply<()>)
    requires db.Valid()
    modifies db
    ensures db.Valid()
    ensures var found := Find(old(db.messages), KeyIs(IdOfMessage, messageId));
      (reply.Ok? <==> found.Some? && old(db.messages)[found.value].receiverId == caller)
    ensures reply.Ok? ==>
      && reply == Ok(204, ())
      && db.messages == UpdateWhere(old(db.messages), KeyIs(IdOfMessage, messageId), MarkRead())
      && db.jobs == old(db.jobs) && db.applications == old(db.applications) && db.clock == old(db.clock)
    ensures reply.Fail? ==> reply == Fail(500, InternalError) && unchanged(db)
  {
    var found := Find(db.messages, KeyIs(IdOfMessage, messageId));
    if found.None? || db.messages[found.value].receiverId != caller {
      return Fail(500, InternalError);
    }
    MarkReadKeepsConsistent(db.jobs, db.applications, db.messages, db.clock, KeyIs(IdOfMessage, messageId));
    db.messages := UpdateWhere(db.messages, KeyIs(IdOfMessage, messageId), MarkRead());
    reply := Ok(204, ());
  }

  /** Marking one message read touches only that message, and afterwards it is read. */
  lemma MarkOneReadTouchesOnlyIt(ms: seq<Message>, messageId: Id)
    ensures var after := UpdateWhere(ms, KeyIs(IdOfMessage, messageId), MarkRead());
      && (forall k :: 0 <= k < |ms| && ms[k].id != messageId ==> after[k] == ms[k])
      && (forall k :: 0 <= k < |ms| && ms[k].id == messageId ==> after[k] == ms[k].(read := true))
  {
    var after := UpdateWhere(ms, KeyIs(IdOfMessage, messageId), MarkRead());
    forall k | 0 <= k < |ms| ensures after[k] == if ms[k].id == messageId then ms[k].(read := true) else ms[k] {
      assert IdOfMessage(ms[k]) == ms[k].id;
      assert KeyIs(IdOfMessage, messageId)(ms[k]) == (IdOfMessage(ms[k]) == messageId);
    }
  }

  /**
    The conversation key as the route builds it: the counterpart's id, a
    dash, and the job id or `no-job`.
  */
  function LegacyKey(k: Key): string
  {
    k.other + "-" + (if k.job.Some? then k.job.value else "no-job")
  }

  /**
    The string key merges distinct conversations once an id contains a dash:
    a job-less exchange with user `a-b` and an exchange with user `a` about
    job `b-no-job` get the same key.
  */
  lemma LegacyKeyCollides()
    ensures Key("a-b", None) != Key("a", Some("b-no-job"))
    ensures LegacyKey(Key("a-b", None)) == LegacyKey(Key("a", Some("b-no-job")))
  {
    assert LegacyKey(Key("a-b", None)) == "a-b-no-job";
    assert LegacyKey(Key("a", Some("b-no-job"))) == "a-b-no-job";
  }
}
