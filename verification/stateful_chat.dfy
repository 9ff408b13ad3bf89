/** The stateful chat agent of examples/stateful-chat.ts: one conversation
    per user, kept in the state store under ("conversation", user id), that
    each chat turn loads, extends with the user's message and the reply,
    and saves back with a 90-day expiry. The calls the agent makes to the
    control plane (loading the state, interpreting the message) are inputs:
    what they returned is passed in, and the save is returned as a request. */
module StatefulChat {
  import opened Common

  datatype Role = User | Assistant

  /** A message's content: text, or for the agent's own replies the reply
      it renders (the wording is string formatting of the reply). */
  datatype Content = Text(text: string) | Rendered(reply: Reply)

  datatype Message = Message(role: Role, content: Content, timestamp: int)

  datatype Conversation = Conversation(
    messages: seq<Message>,
    preferences: map<string, Json>,
    pendingTasks: seq<string>,
    lastUpdated: int)

  /** A save of the conversation to the state store. */
  datatype SaveRequest = SaveRequest(
    component: string,
    key: string,
    value: Conversation,
    expiresInSeconds: Option<int>)

  /** The canned replies of the demo responder. */
  datatype Reply =
    | Recall(quoted: seq<Content>)
    | RecallPreferences(preferences: map<string, Json>)
    | Acknowledge(count: nat)

  const Component: string := "conversation"

  /** At most this many messages are kept. */
  const HistoryLimit: nat := 50

  /** 90 days, in seconds. */
  const Retention: int := 90 * 24 * 60 * 60

  const PreferenceKeywords: seq<string> := ["prefer", "like", "always", "usually", "favorite"]

  /** `toLowerCase` on the ASCII letters. */
  function Lower(s: string): (t: string)
    ensures |t| == |s|
  {
    seq(|s|, i requires 0 <= i < |s| => LowerChar(s[i]))
  }

  function LowerChar(c: char): char {
    if 'A' <= c <= 'Z' then (c as int + 32) as char else c
  }

  /** `sub` occurs in `s` at position `i`. */
  predicate OccursAt(s: string, sub: string, i: int) {
    0 <= i <= |s| - |sub| && s[i..i + |sub|] == sub
  }

  /** `s.includes(sub)`. */
  predicate Contains(s: string, sub: string) {
    exists i :: 0 <= i <= |s| - |sub| && OccursAt(s, sub, i)
  }

  /** The conversation stored for the user, or a fresh one. */
  function LoadContext(stored: Option<Conversation>, now: int): (c: Conversation)
    ensures stored.Some? ==> c == stored.value
    ensures stored.None? ==> c.messages == [] && c.preferences == map[] && c.pendingTasks == []
  {
    match stored
    case Some(c) => c
    case None => Conversation([], map[], [], now)
  }

  /** The interpreter is asked for preferences only when the message uses
      one of the keywords, case-insensitively and anywhere in a word. */
  predicate MentionsPreference(message: string) {
    exists k :: 0 <= k < |PreferenceKeywords| && Contains(Lower(message), PreferenceKeywords[k])
  }

  /** The preferences a turn adds: what the interpreter extracted, when it
      was asked at all. */
  function ExtractPreferences(message: string, extracted: Option<map<string, Json>>): (p: Option<map<string, Json>>)
    ensures !MentionsPreference(message) ==> p.None?
    ensures MentionsPreference(message) ==> p == extracted
  {
    if MentionsPreference(message) then extracted else None
  }

  /** The tasks a turn completes: none without asking when nothing is
      pending, else what the interpreter reported. */
  function CompletedTasks(pending: seq<string>, reported: seq<string>): (done: seq<string>)
    ensures pending == [] ==> done == []
    ensures pending != [] ==> done == reported
  {
    if |pending| == 0 then [] else reported
  }

  /** The preferences after a turn: merged with what was extracted, if
      the interpreter was asked and found any. */
  function UpdatedPreferences(prev: map<string, Json>, message: string, extracted: Option<map<string, Json>>): (m: map<string, Json>)
    ensures MentionsPreference(message) && extracted.Some? ==> m == Merge(prev, extracted.value)
    ensures !MentionsPreference(message) || extracted.None? ==> m == prev
  {
    match ExtractPreferences(message, extracted)
    case Some(p) => Merge(prev, p)
    case None => prev
  }

  /** The pending tasks after a turn: those not reported done, in their
      original order and with their repetitions. */
  function StillPending(pending: seq<string>, reported: seq<string>): (r: seq<string>)
    ensures forall t :: t in r <==> t in pending && t !in reported
    ensures Subsequence(r, pending)
    ensures forall t :: multiset(r)[t] == if t in reported then 0 else multiset(pending)[t]
    ensures reported == [] ==> r == pending
    ensures pending == [] ==> r == []
  {
    var done := CompletedTasks(pending, reported);
    if |done| > 0 then Remove(pending, done)
    else
      SubsequenceOfItself(pending);
      pending
  }

  /** `{ ...old, ...new }`: a key in both takes the new value. */
  function Merge(prev: map<string, Json>, update: map<string, Json>): (m: map<string, Json>)
    ensures m.Keys == prev.Keys + update.Keys
    ensures forall k :: k in update ==> m[k] == update[k]
    ensures forall k :: k in prev && k !in update ==> m[k] == prev[k]
  {
    prev + update
  }

  /** `tasks.filter(t => !done.includes(t))`: the tasks not done, in their
      order, each kept as often as it occurs, the done ones not at all. */
  function Remove(tasks: seq<string>, done: seq<string>): (r: seq<string>)
    ensures |r| <= |tasks|
    ensures forall t :: t in r <==> t in tasks && t !in done
    ensures Subsequence(r, tasks)
    ensures forall t :: multiset(r)[t] == if t in done then 0 else multiset(tasks)[t]
  {
    if |tasks| == 0 then []
    else
      var rest := Remove(tasks[1..], done);
      assert tasks == [tasks[0]] + tasks[1..];
      if tasks[0] in done then rest
      else
        assert ([tasks[0]] + rest)[1..] == rest;
        [tasks[0]] + rest
  }

  /** Removing a task nobody reported done keeps the list as it was. */
  lemma {:induction false} RemoveNothing(tasks: seq<string>, done: seq<string>)
    requires forall i :: 0 <= i < |tasks| ==> tasks[i] !in done
    ensures Remove(tasks, done) == tasks
  {
    if |tasks| > 0 {
      RemoveNothing(tasks[1..], done);
      assert [tasks[0]] + tasks[1..] == tasks;
    }
  }

  /** `messages.slice(-50)` when there are more than 50. */
  function KeepRecent(messages: seq<Message>): (kept: seq<Message>)
    ensures |kept| == if |messages| > HistoryLimit then HistoryLimit else |messages|
    ensures kept == messages[|messages| - |kept|..]
  {
    if |messages| > HistoryLimit then messages[|messages| - HistoryLimit..] else messages
  }

  /** The history after a turn: the two new messages appended, then only
      the most recent kept. What survives of the old history is its tail. */
  function Extend(history: seq<Message>, asked: Message, answered: Message): (kept: seq<Message>)
    ensures |kept| == if |history| + 2 > HistoryLimit then HistoryLimit else |history| + 2
    ensures kept[|kept| - 2] == asked && kept[|kept| - 1] == answered
    ensures kept[..|kept| - 2] == history[|history| - (|kept| - 2)..]
  {
    var full := history + [asked, answered];
    var kept := KeepRecent(full);
    assert kept[..|kept| - 2] == full[|full| - |kept|..|full| - 2];
    assert full[..|full| - 2] == history;
    kept
  }

  /** The last five messages of a conversation (all of them when fewer). */
  function RecentWindow(messages: seq<Message>): (w: seq<Message>)
    ensures |w| == if |messages| > 5 then 5 else |messages|
    ensures forall j :: 0 <= j < |w| ==> w[j] == messages[|messages| - |w| + j]
  {
    messages[if |messages| > 5 then |messages| - 5 else 0..]
  }

  /** The final two entries of a sequence (all of them when fewer). */
  function LastTwo<T>(xs: seq<T>): (ys: seq<T>)
    ensures |ys| == if |xs| > 2 then 2 else |xs|
    ensures ys == xs[|xs| - |ys|..]
    ensures forall y :: y in ys ==> y in xs
  {
    xs[if |xs| > 2 then |xs| - 2 else 0..]
  }

  /** What the user said among the last five messages, the last two of
      them: exactly the final two (or fewer) user contents of the window,
      in order. So each quoted content is that of a user message among the
      last five, and a conversation ending in a user message quotes it
      last. */
  function LastUserContents(messages: seq<Message>): (quoted: seq<Content>)
    ensures |quoted| <= 2
    ensures var users := UserContents(RecentWindow(messages));
      && |quoted| == (if |users| > 2 then 2 else |users|)
      && quoted == users[|users| - |quoted|..]
    ensures forall c :: c in quoted ==>
      exists i :: 0 <= i < |messages| && |messages| - 5 <= i && messages[i].role == User && messages[i].content == c
    ensures |messages| > 0 && messages[|messages| - 1].role == User ==>
      |quoted| > 0 && quoted[|quoted| - 1] == messages[|messages| - 1].content
  {
    var recent := RecentWindow(messages);
    var users := UserContents(recent);
    var quoted := LastTwo(users);
    forall c | c in quoted
      ensures exists i :: 0 <= i < |messages| && |messages| - 5 <= i && messages[i].role == User && messages[i].content == c
    {
      assert c in users;
      var j :| 0 <= j < |recent| && recent[j].role == User && recent[j].content == c;
      assert messages[|messages| - |recent| + j] == recent[j];
    }
    quoted
  }

  /** The contents of the user's messages, in order. */
  function UserContents(messages: seq<Message>): (cs: seq<Content>)
    ensures |cs| <= |messages|
    ensures forall c :: c in cs ==> exists i :: 0 <= i < |messages| && messages[i].role == User && messages[i].content == c
    ensures |messages| > 0 && messages[|messages| - 1].role == User ==>
      |cs| > 0 && cs[|cs| - 1] == messages[|messages| - 1].content
  {
    if |messages| == 0 then []
    else
      var prefix := messages[..|messages| - 1];
      var last := messages[|messages| - 1];
      var rest := UserContents(prefix);
      assert forall i :: 0 <= i < |prefix| ==> prefix[i] == messages[i];
      if last.role == User then rest + [last.content] else rest
  }

  /** UserContents distributes over concatenation: together with
      UserContentsOne it fixes the result as the order-preserving filter
      of the user's messages. */
  lemma {:induction false} UserContentsAppend(a: seq<Message>, b: seq<Message>)
    ensures UserContents(a + b) == UserContents(a) + UserContents(b)
    decreases |b|
  {
    if |b| > 0 {
      UserContentsAppend(a, b[..|b| - 1]);
      assert (a + b)[..|a + b| - 1] == a + b[..|b| - 1];
    } else {
      assert a + b == a;
    }
  }

  /** A single message contributes its content exactly when the user sent it. */
  lemma UserContentsOne(m: Message)
    ensures UserContents([m]) == if m.role == User then [m.content] else []
  {
    assert [m][..0] == [];
  }

  /** The demo responder: a recall of what the user said when asked,
      else the remembered preferences, else an acknowledgement counting
      the messages so far. */
  function Respond(message: string, context: Conversation): (reply: Reply)
    ensures reply.Recall? <==> Contains(Lower(message), "what did i say")
    ensures reply.Recall? ==> reply.quoted == LastUserContents(context.messages)
    ensures !Contains(Lower(message), "what did i say") && |context.preferences| > 0 ==>
      reply == RecallPreferences(context.preferences)
    ensures !Contains(Lower(message), "what did i say") && |context.preferences| == 0 ==>
      reply == Acknowledge(|context.messages|)
  {
    if Contains(Lower(message), "what did i say") then Recall(LastUserContents(context.messages))
    else if |context.preferences| > 0 then RecallPreferences(context.preferences)
    else Acknowledge(|context.messages|)
  }

  /** One chat turn. `stored` is what loading the state returned,
      `extracted` the preferences the interpreter would report, and
      `reported` the tasks it would report done. */
  function Chat(userId: string, stored: Option<Conversation>, message: string, now: int,
                extracted: Option<map<string, Json>>, reported: seq<string>): (r: (Reply, SaveRequest))
    ensures r.1.component == Component && r.1.key == userId
    ensures r.1.expiresInSeconds == Some(Retention) && r.1.value.lastUpdated == now
    ensures var kept := r.1.value.messages; var prev := LoadContext(stored, now).messages;
      && |kept| == (if |prev| + 2 > HistoryLimit then HistoryLimit else |prev| + 2)
      && kept[|kept| - 2] == Message(User, Text(message), now)
      && kept[|kept| - 1] == Message(Assistant, Rendered(r.0), now)
      && kept[..|kept| - 2] == prev[|prev| - (|kept| - 2)..]
    ensures MentionsPreference(message) && extracted.Some? ==>
      r.1.value.preferences == Merge(LoadContext(stored, now).preferences, extracted.value)
    ensures !MentionsPreference(message) || extracted.None? ==>
      r.1.value.preferences == LoadContext(stored, now).preferences
    ensures forall t :: t in r.1.value.pendingTasks <==> t in LoadContext(stored, now).pendingTasks && t !in reported
    ensures Subsequence(r.1.value.pendingTasks, LoadContext(stored, now).pendingTasks)
    ensures forall t :: multiset(r.1.value.pendingTasks)[t] == (if t in reported then 0 else multiset(LoadContext(stored, now).pendingTasks)[t])
    ensures var prev := LoadContext(stored, now);
      r.0 == Respond(message, Conversation(prev.messages + [Message(User, Text(message), now)],
                                           r.1.value.preferences, r.1.value.pendingTasks, prev.lastUpdated))
  {
    var prev := LoadContext(stored, now);
    var prefs := UpdatedPreferences(prev.preferences, message, extracted);
    var pending := StillPending(prev.pendingTasks, reported);
    var asked := Message(User, Text(message), now);
    var reply := Respond(message, Conversation(prev.messages + [asked], prefs, pending, prev.lastUpdated));
    var value := Conversation(Extend(prev.messages, asked, Message(Assistant, Rendered(reply), now)), prefs, pending, now);
    (reply, SaveRequest(Component, userId, value, Some(Retention)))
  }

  /** The reply is built from the context after this turn's merge: without
      the recall phrase it shows the preferences as saved, or, when there
      are none, counts the history including the new question. */
  lemma ChatReplyUsesUpdatedContext(userId: string, stored: Option<Conversation>, message: string, now: int,
                                    extracted: Option<map<string, Json>>, reported: seq<string>)
    requires !Contains(Lower(message), "what did i say")
    ensures var r := Chat(userId, stored, message, now, extracted, reported);
      && (|r.1.value.preferences| > 0 ==> r.0 == RecallPreferences(r.1.value.preferences))
      && (|r.1.value.preferences| == 0 ==> r.0 == Acknowledge(|LoadContext(stored, now).messages| + 1))
  {
  }

  /** addTask: the task is appended and the conversation saved without an
      expiry. */
  function AddTask(userId: string, stored: Option<Conversation>, task: string, now: int): (save: SaveRequest)
    ensures save.component == Component && save.key == userId
    ensures save.expiresInSeconds.None?
    ensures save.value.pendingTasks == LoadContext(stored, now).pendingTasks + [task]
    ensures save.value.messages == LoadContext(stored, now).messages
    ensures save.value.preferences == LoadContext(stored, now).preferences
    ensures save.value.lastUpdated == now
  {
    var prev := LoadContext(stored, now);
    SaveRequest(Component, userId, prev.(pendingTasks := prev.pendingTasks + [task], lastUpdated := now), None)
  }

  /** Until the limit is reached nothing is dropped: a turn appends exactly
      the user's message and the reply. */
  lemma ChatAppendsTwo(userId: string, stored: Option<Conversation>, message: string, now: int,
                       extracted: Option<map<string, Json>>, reported: seq<string>)
    requires |LoadContext(stored, now).messages| + 2 <= HistoryLimit
    ensures var save := Chat(userId, stored, message, now, extracted, reported).1;
      && |save.value.messages| == |LoadContext(stored, now).messages| + 2
      && save.value.messages[..|save.value.messages| - 2] == LoadContext(stored, now).messages
  {
  }

  /** A task added, then reported done in the next turn, is gone; the
      other pending tasks stay. */
  lemma AddThenCompleteTask(userId: string, stored: Option<Conversation>, task: string, now: int,
                            message: string, later: int, extracted: Option<map<string, Json>>)
    ensures var added := AddTask(userId, stored, task, now).value;
      var save := Chat(userId, Some(added), message, later, extracted, [task]).1;
      && task !in save.value.pendingTasks
      && (forall t :: t in LoadContext(stored, now).pendingTasks && t != task ==> t in save.value.pendingTasks)
  {
  }

  /** A turn that reports nothing done keeps the pending tasks in order. */
  lemma NothingReportedKeepsTasks(userId: string, stored: Option<Conversation>, message: string, now: int,
                                  extracted: Option<map<string, Json>>)
    ensures Chat(userId, stored, message, now, extracted, []).1.value.pendingTasks ==
            LoadContext(stored, now).pendingTasks
  {
  }

  /** What a turn saves is what the next turn loads, whatever came before:
      the first turn of a new user leaves a two-message conversation. */
  lemma FirstTurn(userId: string, message: string, now: int, reported: seq<string>)
    ensures var (reply, save) := Chat(userId, None, message, now, None, reported);
      && save.value.messages == [Message(User, Text(message), now), Message(Assistant, Rendered(reply), now)]
      && save.value.pendingTasks == []
      && LoadContext(Some(save.value), now + 1) == save.value
  {
    var (reply, save) := Chat(userId, None, message, now, None, reported);
    var m := save.value.messages;
    assert |m| == 2;
    assert m == [m[0], m[1]];
  }

  /** `toLowerCase` works letter by letter, so it distributes over
      concatenation. */
  lemma LowerAppend(a: string, b: string)
    ensures Lower(a + b) == Lower(a) + Lower(b)
  {
    assert forall i :: 0 <= i < |a + b| ==> Lower(a + b)[i] == (Lower(a) + Lower(b))[i];
  }

  /** Keyword detection is a case-insensitive substring test: a keyword
      written in any capitals, anywhere in the message and even inside a
      longer word ("unLIKEly"), counts. */
  lemma KeywordsMatchInsideWords(before: string, word: string, after: string, k: nat)
    requires k < |PreferenceKeywords| && Lower(word) == PreferenceKeywords[k]
    ensures MentionsPreference(before + word + after)
  {
    LowerAppend(before + word, after);
    LowerAppend(before, word);
    var low := Lower(before + word + after);
    assert low == Lower(before) + PreferenceKeywords[k] + Lower(after);
    assert low[|before|..|before| + |PreferenceKeywords[k]|] == PreferenceKeywords[k];
    assert OccursAt(low, PreferenceKeywords[k], |before|);
  }

  /** Lower-casing twice is lower-casing once. */
  lemma LowerIdempotent(s: string)
    ensures Lower(Lower(s)) == Lower(s)
  {
    assert forall i :: 0 <= i < |s| ==> LowerChar(LowerChar(s[i])) == LowerChar(s[i]);
  }

  /** Whether a message mentions a preference does not depend on its
      capitals. */
  lemma MentionsPreferenceIgnoresCase(message: string)
    ensures MentionsPreference(Lower(message)) <==> MentionsPreference(message)
  {
    LowerIdempotent(message);
  }

  /** Asked what they said, the agent quotes the question itself last: the
      message is added to the history before the reply is generated. */
  lemma RecallQuotesTheQuestion(userId: string, stored: Option<Conversation>, message: string, now: int,
                                extracted: Option<map<string, Json>>, reported: seq<string>)
    requires Contains(Lower(message), "what did i say")
    ensures var reply := Chat(userId, stored, message, now, extracted, reported).0;
      && reply.Recall?
      && |reply.quoted| > 0
      && reply.quoted[|reply.quoted| - 1] == Text(message)
  {
    var prev := LoadContext(stored, now);
    var asked := Message(User, Text(message), now);
    var history := prev.messages + [asked];
    assert history[|history| - 1] == asked;
    var prefs := UpdatedPreferences(prev.preferences, message, extracted);
    var pending := StillPending(prev.pendingTasks, reported);
    var reply := Respond(message, Conversation(history, prefs, pending, prev.lastUpdated));
    assert reply.quoted == LastUserContents(history);
  }
}
