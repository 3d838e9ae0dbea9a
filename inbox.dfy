/**
  The inbox page: the search box over the fetched conversation list, the
  "You: " marker in front of the last message and the unread badge.
*/
module Inbox {
  import opened Wrappers
  import opened Domain
  import opened Seqs
  import opened Text
  import MessageRoutes

  datatype UserRef = UserRef(id: Id, username: string)

  datatype JobRef = JobRef(id: Id, title: string)

  /** A conversation as the page receives it, with the counterpart's and the job's display fields. */
  datatype ConversationView = ConversationView(
    id: string,
    otherUser: UserRef,
    job: Option<JobRef>,
    lastMessage: Message,
    unreadCount: nat)

  /** The search predicate: the query occurs, ignoring case, in the username, the job title or the last message. */
  predicate Matches(conv: ConversationView, query: string)
  {
    || ContainsIgnoreCase(conv.otherUser.username, query)
    || (conv.job.Some? && ContainsIgnoreCase(conv.job.value.title, query))
    || ContainsIgnoreCase(conv.lastMessage.content, query)
  }

  function MatchesQuery(query: string): ConversationView -> bool
  {
    (conv: ConversationView) => Matches(conv, query)
  }

  /** `filteredConversations`: the conversations the search keeps, in the order fetched. */
  function FilterConversations(convs: seq<ConversationView>, query: string): (r: seq<ConversationView>)
    ensures forall c :: c in r <==> c in convs && Matches(c, query)
    ensures forall c :: c in r && c.job.None? ==>
      ContainsIgnoreCase(c.otherUser.username, query) || ContainsIgnoreCase(c.lastMessage.content, query)
  {
    FilterMembers(convs, MatchesQuery(query));
    Filter(convs, MatchesQuery(query))
  }

  /** The search never reorders: the kept conversations appear in the fetched order. */
  lemma SearchKeepsOrder(convs: seq<ConversationView>, query: string)
    ensures Subsequence(FilterConversations(convs, query), convs)
  {
    FilterIsSubsequence(convs, MatchesQuery(query));
  }

  /** An empty search box shows every conversation. */
  lemma EmptySearchKeepsAll(convs: seq<ConversationView>)
    ensures FilterConversations(convs, "") == convs
  {
    forall c | c in convs ensures MatchesQuery("")(c) {
      EmptyMatchesAll(c.otherUser.username);
    }
    FilterAll(convs, MatchesQuery(""));
  }

  /** Typing the query in upper or lower case gives the same list. */
  lemma SearchIgnoresQueryCase(convs: seq<ConversationView>, query: string)
    ensures FilterConversations(convs, Lower(query)) == FilterConversations(convs, query)
  {
    forall c | c in convs ensures MatchesQuery(Lower(query))(c) == MatchesQuery(query)(c) {
      QueryCaseIrrelevant(c.otherUser.username, query);
      if c.job.Some? {
        QueryCaseIrrelevant(c.job.value.title, query);
      }
      QueryCaseIrrelevant(c.lastMessage.content, query);
    }
    FilterSame(convs, MatchesQuery(Lower(query)), MatchesQuery(query));
  }

  /** The last message is marked as the viewer's own unless the counterpart sent it. */
  predicate ShowsYou(conv: ConversationView)
  {
    conv.lastMessage.senderId != conv.otherUser.id
  }

  /** The line under the name: the last message's content, after "You: " when `ShowsYou`. */
  function Preview(conv: ConversationView): (text: string)
    ensures ShowsYou(conv) ==> text == "You: " + conv.lastMessage.content
    ensures !ShowsYou(conv) ==> text == conv.lastMessage.content
  {
    (if ShowsYou(conv) then "You: " else "") + conv.lastMessage.content
  }

  /** The unread badge, present only when the counter is positive. */
  function Badge(conv: ConversationView): (badge: Option<nat>)
    ensures badge.Some? <==> conv.unreadCount > 0
    ensures badge.Some? ==> badge.value == conv.unreadCount
  {
    if conv.unreadCount > 0 then Some(conv.unreadCount) else None
  }

  /** `view` displays the conversation-list entry `conv`. */
  predicate Presents(view: ConversationView, conv: MessageRoutes.Conversation)
  {
    && view.otherUser.id == conv.key.other
    && (view.job.Some? <==> conv.key.job.Some?)
    && (view.job.Some? ==> view.job.value.id == conv.key.job.value)
    && view.lastMessage == conv.lastMessage
    && view.unreadCount == conv.unreadCount
  }

  /**
    For an entry of the caller's conversation list, "You: " appears exactly
    when the caller sent the last message to someone else; a note to oneself
    carries no marker, since its counterpart is the caller.
  */
  lemma YouMarksCallersMessages(view: ConversationView, conv: MessageRoutes.Conversation, caller: Id)
    requires Presents(view, conv)
    requires MessageRoutes.Involves(caller)(conv.lastMessage)
    requires MessageRoutes.KeyOf(conv.lastMessage, caller) == conv.key
    ensures ShowsYou(view) <==> conv.lastMessage.senderId == caller && conv.lastMessage.receiverId != caller
  {
  }

  /**
    For an entry of the caller's conversation list, the badge appears exactly
    when a message of that conversation waits unread for the caller, and it
    shows how many do.
  */
  lemma BadgeIffUnread(view: ConversationView, conv: MessageRoutes.Conversation, messages: seq<Message>, caller: Id)
    requires Presents(view, conv)
    requires conv.unreadCount == |Filter(messages, MessageRoutes.UnreadInGroup(caller, conv.key))|
    ensures Badge(view).Some? <==> exists m :: m in messages && MessageRoutes.UnreadInGroup(caller, conv.key)(m)
    ensures Badge(view).Some? ==> Badge(view).value == |Filter(messages, MessageRoutes.UnreadInGroup(caller, conv.key))|
  {
    FilterEmpty(messages, MessageRoutes.UnreadInGroup(caller, conv.key));
  }

  function IsDash(): char -> bool
  {
    (c: char) => c == '-'
  }

  /** `s.split("-")`: the pieces between dashes, at least one. */
  function Fields(s: string): (r: seq<string>)
    ensures |r| >= 1
    decreases |s|
  {
    match Find(s, IsDash())
    case None => [s]
    case Some(i) => [s[..i]] + Fields(s[i + 1..])
  }

  /**
    How the thread page reads a conversation id back: the first two
    dash-separated fields are the counterpart and the job, and a job field of
    `no-job` (or a missing or empty one) means no job.
  */
  function ThreadTarget(id: string): (Id, Option<Id>)
  {
    var f := Fields(id);
    (f[0], if |f| >= 2 && f[1] != "no-job" && f[1] != "" then Some(f[1]) else None)
  }

  /**
    A conversation without a job, with user `u1`, has id `u1-no-job`, which
    splits into `u1`, `no` and `job`: the thread page asks for the messages
    about a job `no`, and the exchange's own messages, which carry no job, are
    not among them.
  */
  lemma ThreadTargetMisreadsNoJob(m: Message)
    requires m.senderId == "u1" && m.receiverId == "me" && m.jobId.None?
    ensures MessageRoutes.LegacyKey(MessageRoutes.KeyOf(m, "me")) == "u1-no-job"
    ensures ThreadTarget("u1-no-job") == ("u1", Some("no"))
    ensures !MessageRoutes.Between("me", "u1", Some("no"))(m)
  {
    var s := "u1-no-job";
    assert "u1" + "-" + "no-job" == s;
    NoJobIdFields();
  }

  /** No character of `s` is a dash. */
  predicate NoDash(s: string)
  {
    forall i :: 0 <= i < |s| ==> s[i] != '-'
  }

  /** `"u1-no-job".split("-")` starts with `u1` and `no`. */
  lemma NoJobIdFields()
    ensures |Fields("u1-no-job")| >= 2 && Fields("u1-no-job")[0] == "u1" && Fields("u1-no-job")[1] == "no"
  {
    assert "u1" + "-" + "no" + "-" + "job" == "u1-no-job";
    FirstTwoFields("u1", "no", "job");
  }

  /** The first two fields of `a-b-rest`, for dash-free `a` and `b`, are `a` and `b`. */
  lemma FirstTwoFields(a: string, b: string, rest: string)
    requires NoDash(a) && NoDash(b)
    ensures var f := Fields(a + "-" + b + "-" + rest);
      |f| >= 2 && f[0] == a && f[1] == b
  {
    var s := a + "-" + b + "-" + rest;
    SplitAtFirstDash(s, |a|);
    assert s[..|a|] == a;
    var t := s[|a| + 1..];
    assert t == b + "-" + rest;
    SplitAtFirstDash(t, |b|);
    assert t[..|b|] == b;
  }

  /** A string whose first dash is at `i` splits into what precedes it and the fields of what follows it. */
  lemma SplitAtFirstDash(s: string, i: nat)
    requires i < |s| && s[i] == '-'
    requires forall j :: 0 <= j < i ==> s[j] != '-'
    ensures Fields(s) == [s[..i]] + Fields(s[i + 1..])
  {
    FindFirst(s, IsDash(), i);
  }

  /**
    The reading the thread page needs: the counterpart's id up to the first
    dash, and after it the job id, or no job for `no-job`.
  */
  function ParseConversationId(id: string): (r: (Id, Option<Id>))
    ensures Find(id, IsDash()).None? ==> r == (id, None)
  {
    match Find(id, IsDash())
    case None => (id, None)
    case Some(i) => (id[..i], if id[i + 1..] == "no-job" then None else Some(id[i + 1..]))
  }

  /** For a counterpart id without a dash the id of a conversation reads back as its key. */
  lemma ParseConversationIdRoundTrip(k: MessageRoutes.Key)
    requires NoDash(k.other)
    requires k.job != Some("no-job")
    ensures ParseConversationId(MessageRoutes.LegacyKey(k)) == (k.other, k.job)
  {
    var id := MessageRoutes.LegacyKey(k);
    FindFirst(id, IsDash(), |k.other|);
    assert id[..|k.other|] == k.other;
    assert id[|k.other| + 1..] == if k.job.Some? then k.job.value else "no-job";
  }

  /**
    Read back that way, the id of an entry of the caller's conversation list
    opens a thread that holds the entry's last message, with or without a job.
  */
  lemma ParsedThreadHoldsLastMessage(m: Message, caller: Id)
    requires MessageRoutes.Involves(caller)(m)
    requires NoDash(MessageRoutes.Other(m, caller))
    requires m.jobId != Some("no-job")
    ensures var target := ParseConversationId(MessageRoutes.LegacyKey(MessageRoutes.KeyOf(m, caller)));
      MessageRoutes.Between(caller, target.0, target.1)(m)
  {
    ParseConversationIdRoundTrip(MessageRoutes.KeyOf(m, caller));
  }
}
