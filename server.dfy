/** The dispatcher (serve.go:23-147): the Server with its registered users,
    its admin, the chat each sender was first seen in, and the poll loop.
    Handlers and sends run one after another here; in the source they are
    goroutines. */
module Dispatch {
  import opened Wrappers
  import opened Errors
  import opened Users
  import opened Record
  import opened Retry

  /** One update of the chat API's long poll. */
  datatype Update = Update(id: int, message: Message)

  /** What one mustSendMessage call carries. The wording ("roger: %s",
      "note: %s", "%s: %s" and the %.2f amount) is not modelled. */
  datatype Text = Reply(p: Payment) | Note(p: Payment) | ErrorReport(context: string, cause: Error)

  datatype Send = Send(chat: int, text: Text)

  /** The world an update meets: whether strconv.ParseFloat takes a lexeme,
      the time.Now() at which an update is parsed, and the outcome of
      Sheet.Append for a row (None on success, else the API's error). */
  datatype Env = Env(floatOk: string -> bool, clock: Update -> Instant, append: seq<Cell> -> Option<string>)

  // ---------------------------------------------------------------------
  // The chat-destination map

  /** sync.Map.LoadOrStore(user, chat) on the chat map: the first chat stored
      for a user stays. */
  function StoreIfAbsent(chats: map<int, int>, user: int, chat: int): (r: map<int, int>)
    ensures r.Keys == chats.Keys + {user}
    ensures forall id :: id in chats ==> r[id] == chats[id]
    ensures user !in chats ==> r[user] == chat
  {
    if user in chats then chats else chats[user := chat]
  }

  /** The chat map after handling the updates in order. */
  function ChatsAfter(chats: map<int, int>, us: seq<Update>): map<int, int>
    decreases |us|
  {
    if us == [] then chats
    else
      var last := us[|us| - 1].message;
      StoreIfAbsent(ChatsAfter(chats, us[..|us| - 1]), last.from, last.chat)
  }

  /** A chat already known for a user is never overwritten. */
  lemma {:induction false} KnownChatKept(chats: map<int, int>, us: seq<Update>, id: int)
    requires id in chats
    ensures id in ChatsAfter(chats, us) && ChatsAfter(chats, us)[id] == chats[id]
    decreases |us|
  {
    if us != [] {
      KnownChatKept(chats, us[..|us| - 1], id);
    }
  }

  /** A new sender's chat is the chat of their first message, whatever later
      messages say; unregistered senders and malformed messages count too. */
  lemma {:induction false} FirstChatWins(chats: map<int, int>, us: seq<Update>, k: nat)
    requires k < |us| && us[k].message.from !in chats
    requires forall j :: 0 <= j < k ==> us[j].message.from != us[k].message.from
    ensures var from := us[k].message.from;
      from in ChatsAfter(chats, us) && ChatsAfter(chats, us)[from] == us[k].message.chat
    decreases |us|
  {
    var from := us[k].message.from;
    var prefix := us[..|us| - 1];
    if k == |us| - 1 {
      assert from !in ChatsAfter(chats, prefix) by {
        SenderWithoutMessageUnknown(chats, prefix, from);
      }
    } else {
      FirstChatWins(chats, prefix, k);
    }
  }

  /** A user who has sent nothing and was not known is still not known. */
  lemma {:induction false} SenderWithoutMessageUnknown(chats: map<int, int>, us: seq<Update>, id: int)
    requires id !in chats
    requires forall j :: 0 <= j < |us| ==> us[j].message.from != id
    ensures id !in ChatsAfter(chats, us)
    decreases |us|
  {
    if us != [] {
      SenderWithoutMessageUnknown(chats, us[..|us| - 1], id);
    }
  }

  /** Handling two runs of updates one after the other. */
  lemma {:induction false} ChatsAfterConcat(chats: map<int, int>, a: seq<Update>, b: seq<Update>)
    ensures ChatsAfter(chats, a + b) == ChatsAfter(ChatsAfter(chats, a), b)
    decreases |b|
  {
    if b == [] {
      assert a + b == a;
    } else {
      assert (a + b)[..|a + b| - 1] == a + b[..|b| - 1];
      ChatsAfterConcat(chats, a, b[..|b| - 1]);
    }
  }

  // ---------------------------------------------------------------------
  // Routing

  /** The users who get a notification of a payment by `from`: the
      registered users other than the sender whose chat is known. */
  function Recipients(users: map<int, string>, chats: map<int, int>, from: int): set<int>
  {
    set uid | uid in users && uid != from && uid in chats
  }

  /** `order` lists the elements of s, each once. */
  ghost predicate Enumerates(order: seq<int>, s: set<int>)
  {
    && (forall i :: 0 <= i < |order| ==> order[i] in s)
    && (forall x :: x in s ==> x in order)
    && (forall i, j :: 0 <= i < j < |order| ==> order[i] != order[j])
  }

  /** The notifications of p to the users in `order`, in that order. */
  function Notes(order: seq<int>, chats: map<int, int>, p: Payment): (notes: seq<Send>)
    ensures |notes| <= |order|
    decreases |order|
  {
    if order == [] then []
    else
      var last := order[|order| - 1];
      Notes(order[..|order| - 1], chats, p) + if last in chats then [Send(chats[last], Note(p))] else []
  }

  /** handleUpdateError's send: the report goes to the admin's chat if it is
      known, and otherwise nowhere. */
  function AdminReport(chats: map<int, int>, admin: int, context: string, e: Error): (out: seq<Send>)
    ensures |out| <= 1
  {
    if admin in chats then [Send(chats[admin], ErrorReport(context, e))] else []
  }

  /** The sends handleUpdate makes for update u, given the chat map after its
      LoadOrStore. */
  ghost predicate Routed(users: map<int, string>, admin: int, chats: map<int, int>, m: Message,
                         parsed: Result<Payment, Error>, append: seq<Cell> -> Option<string>, out: seq<Send>)
  {
    match parsed
    case Failure(e) => out == AdminReport(chats, admin, "could not parse message", e)
    case Success(p) =>
      match append(Values(p))
      case Some(cause) =>
        out == AdminReport(chats, admin, "could not append to sheet", Remote("could not append to sheet", cause))
      case None =>
        exists order :: Enumerates(order, Recipients(users, chats, m.from))
                        && out == [Send(m.chat, Reply(p))] + Notes(order, chats, p)
  }

  lemma {:induction false} NotesAt(order: seq<int>, chats: map<int, int>, p: Payment)
    requires forall i :: 0 <= i < |order| ==> order[i] in chats
    ensures |Notes(order, chats, p)| == |order|
    ensures forall i :: 0 <= i < |order| ==> Notes(order, chats, p)[i] == Send(chats[order[i]], Note(p))
    decreases |order|
  {
    if order != [] {
      NotesAt(order[..|order| - 1], chats, p);
    }
  }

  /** A list of distinct elements is as long as the set it enumerates. */
  lemma {:induction false} EnumerationSize(order: seq<int>, s: set<int>)
    requires Enumerates(order, s)
    ensures |order| == |s|
    decreases |order|
  {
    if order == [] {
      assert forall x :: x !in s;
      assert s == {};
    } else {
      var last := order[|order| - 1];
      var rest := order[..|order| - 1];
      assert last in s;
      assert Enumerates(rest, s - {last}) by {
        forall x | x in s - {last} ensures x in rest {
          var i :| 0 <= i < |order| && order[i] == x;
          assert i < |order| - 1;
          assert rest[i] == x;
        }
      }
      EnumerationSize(rest, s - {last});
      assert s == (s - {last}) + {last};
    }
  }

  /** After a successful parse and append, the sender's message chat gets
      exactly one reply, sent first, and every recipient gets exactly one
      notification in their own chat; nobody else gets anything. */
  lemma SuccessfulUpdateRouting(users: map<int, string>, admin: int, chats: map<int, int>, m: Message,
                                 p: Payment, append: seq<Cell> -> Option<string>, out: seq<Send>)
    requires Routed(users, admin, chats, m, Success(p), append, out)
    requires append(Values(p)).None?
    ensures var rs := Recipients(users, chats, m.from);
      && |out| == 1 + |rs|
      && out[0] == Send(m.chat, Reply(p))
      && (forall i :: 1 <= i < |out| ==> out[i].text == Note(p))
      && (forall uid :: uid in rs ==> exists i :: 1 <= i < |out| && out[i] == Send(chats[uid], Note(p)))
      && (exists order :: Enumerates(order, rs) && |out| == 1 + |order|
            && forall k :: 0 <= k < |order| ==> out[k + 1] == Send(chats[order[k]], Note(p)))
  {
    var rs := Recipients(users, chats, m.from);
    var order :| Enumerates(order, rs) && out == [Send(m.chat, Reply(p))] + Notes(order, chats, p);
    NotesAt(order, chats, p);
    EnumerationSize(order, rs);
    assert forall k :: 0 <= k < |order| ==> out[k + 1] == Send(chats[order[k]], Note(p));
    forall uid | uid in rs ensures exists i :: 1 <= i < |out| && out[i] == Send(chats[uid], Note(p)) {
      var k :| 0 <= k < |order| && order[k] == uid;
      assert out[k + 1] == Send(chats[uid], Note(p));
    }
  }

  /** When parsing or appending fails there is no reply and no notification:
      at most one report, to the admin's known chat. */
  lemma FailedUpdateRouting(users: map<int, string>, admin: int, chats: map<int, int>, m: Message,
                             parsed: Result<Payment, Error>, append: seq<Cell> -> Option<string>, out: seq<Send>)
    requires Routed(users, admin, chats, m, parsed, append, out)
    requires parsed.Failure? || append(Values(parsed.value)).Some?
    ensures |out| <= 1
    ensures |out| == 1 <==> admin in chats
    ensures forall i :: 0 <= i < |out| ==> admin in chats && out[i].chat == chats[admin] && out[i].text.ErrorReport?
  {
  }

  // ---------------------------------------------------------------------
  // The poll offset

  /** The offset after a batch: one past the last update's id; an empty
      batch leaves it alone. */
  function NextOffset(offset: int, batch: seq<Update>): int
  {
    if |batch| > 0 then batch[|batch| - 1].id + 1 else offset
  }

  /** Moving the offset past two batches in turn is moving it past both. */
  lemma NextOffsetConcat(offset: int, a: seq<Update>, b: seq<Update>)
    ensures NextOffset(NextOffset(offset, a), b) == NextOffset(offset, a + b)
  {
    if b == [] {
      assert a + b == a;
    } else {
      assert (a + b)[|a + b| - 1] == b[|b| - 1];
    }
  }

  predicate Increasing(batch: seq<Update>)
  {
    forall i, j :: 0 <= i < j < |batch| ==> batch[i].id < batch[j].id
  }

  /** With ids increasing, as the chat API returns them, the next poll asks
      for nothing already received and never moves the offset back. */
  lemma NextOffsetPassesBatch(offset: int, batch: seq<Update>)
    requires Increasing(batch)
    requires forall i :: 0 <= i < |batch| ==> offset <= batch[i].id
    ensures forall i :: 0 <= i < |batch| ==> batch[i].id < NextOffset(offset, batch)
    ensures offset <= NextOffset(offset, batch)
    ensures |batch| > 0 ==> offset < NextOffset(offset, batch)
  {
  }

  /** `out` is the sends of the updates of `batch`, handled in order from
      the chat map `chats`, cut into one run per update: step(c, u, o)
      holds of update u's run o, where c is the chat map after u's
      LoadOrStore. */
  ghost predicate Chained(chats: map<int, int>, batch: seq<Update>,
                          step: (map<int, int>, Update, seq<Send>) -> bool, out: seq<Send>)
    decreases |batch|
  {
    if batch == [] then out == []
    else
      exists k :: 0 <= k <= |out|
        && Chained(chats, batch[..|batch| - 1], step, out[..k])
        && step(ChatsAfter(chats, batch), batch[|batch| - 1], out[k..])
  }

  /** Chained of a nonempty batch, from the split of its sends at k. */
  lemma ChainedStep(chats: map<int, int>, batch: seq<Update>,
                    step: (map<int, int>, Update, seq<Send>) -> bool, out: seq<Send>, k: nat)
    requires batch != [] && k <= |out|
    requires Chained(chats, batch[..|batch| - 1], step, out[..k])
    requires step(ChatsAfter(chats, batch), batch[|batch| - 1], out[k..])
    ensures Chained(chats, batch, step, out)
  {
  }

  /** The sends after position a of a log that extends `before`, cut where
      `before` ends. */
  lemma SplitSends(log: seq<Send>, before: seq<Send>, a: nat)
    requires a <= |before| <= |log| && log[..|before|] == before
    ensures log[a..][..|before| - a] == before[a..]
    ensures log[a..][|before| - a..] == log[|before|..]
    ensures log[a..] == before[a..] + log[|before|..]
  {
  }

  /** The last element of a + b, and what comes before it, for b nonempty. */
  lemma DropLast<T>(a: seq<T>, b: seq<T>)
    requires b != []
    ensures (a + b)[..|a + b| - 1] == a + b[..|b| - 1]
    ensures (a + b)[|a + b| - 1] == b[|b| - 1]
  {
  }

  /** x + y cut k elements into y. */
  lemma CutAfter<T>(x: seq<T>, y: seq<T>, k: nat)
    requires k <= |y|
    ensures (x + y)[..|x| + k] == x + y[..k]
    ensures (x + y)[|x| + k..] == y[k..]
  {
  }

  /** Two runs of updates handled one after the other. */
  lemma {:induction false} ChainedConcat(chats: map<int, int>, a: seq<Update>, b: seq<Update>,
                                         step: (map<int, int>, Update, seq<Send>) -> bool, x: seq<Send>, y: seq<Send>)
    requires Chained(chats, a, step, x)
    requires Chained(ChatsAfter(chats, a), b, step, y)
    ensures Chained(chats, a + b, step, x + y)
    decreases |b|
  {
    if b == [] {
      assert a + b == a && x + y == x;
    } else {
      var b' := b[..|b| - 1];
      var k :| 0 <= k <= |y|
        && Chained(ChatsAfter(chats, a), b', step, y[..k])
        && step(ChatsAfter(ChatsAfter(chats, a), b), b[|b| - 1], y[k..]);
      ChainedConcat(chats, a, b', step, x, y[..k]);
      ChatsAfterConcat(chats, a, b);
      DropLast(a, b);
      CutAfter(x, y, k);
      ChainedStep(chats, a + b, step, x + y, |x| + k);
    }
  }

  /** One update's sends as handleUpdate routes them. */
  ghost function RouteStep(users: map<int, string>, admin: int, env: Env): (map<int, int>, Update, seq<Send>) -> bool
  {
    (c: map<int, int>, u: Update, o: seq<Send>) =>
      Routed(users, admin, c, u.message, ParseMessage(users, u.message, env.floatOk, env.clock(u)), env.append, o)
  }

  /** The sends of handling `batch` in order from the chat map `chats`:
      one run per update, each routed as Routed says. */
  ghost predicate RoutedAll(users: map<int, string>, admin: int, chats: map<int, int>, batch: seq<Update>,
                            env: Env, out: seq<Send>)
  {
    Chained(chats, batch, RouteStep(users, admin, env), out)
  }

  /** One more update of a batch handled: its sends extend the chain. */
  lemma DispatchStep(users: map<int, string>, admin: int, chats0: map<int, int>, updates: seq<Update>, i: nat,
                     env: Env, sent0: seq<Send>, before: seq<Send>, sent: seq<Send>)
    requires i < |updates|
    requires |before| >= |sent0| && before[..|sent0|] == sent0
    requires RoutedAll(users, admin, chats0, updates[..i], env, before[|sent0|..])
    requires |sent| >= |before| && sent[..|before|] == before
    requires var m := updates[i].message;
      Routed(users, admin, StoreIfAbsent(ChatsAfter(chats0, updates[..i]), m.from, m.chat), m,
             ParseMessage(users, m, env.floatOk, env.clock(updates[i])), env.append, sent[|before|..])
    ensures |sent| >= |sent0| && sent[..|sent0|] == sent0
    ensures RoutedAll(users, admin, chats0, updates[..i + 1], env, sent[|sent0|..])
  {
    assert sent[..|sent0|] == before[..|sent0|];
    assert updates[..i + 1][..i] == updates[..i];
    SplitSends(sent, before, |sent0|);
    ChainedStep(chats0, updates[..i + 1], RouteStep(users, admin, env), sent[|sent0|..], |before| - |sent0|);
  }

  // ---------------------------------------------------------------------
  // The poll loop

  /** The closure serve hands to willRetry (serve.go:84-88) when the offset
      is `asked`: attempt i is the i-th GetUpdates call, its error wrapped. */
  function GetUpdates(poll: (int, nat) -> Result<seq<Update>, string>, asked: int): nat -> Result<seq<Update>, Error>
  {
    (attempt: nat) =>
      match poll(asked, attempt)
      case Success(updates) => Success(updates)
      case Failure(cause) => Failure(Remote("could not get updates", cause))
  }

  /** The batch, or the error, of one round's retried poll at `asked`. */
  function Polled(poll: (int, nat) -> Result<seq<Update>, string>, asked: int): Result<seq<Update>, Error>
  {
    Outcome(GetUpdates(poll, asked), Retries)
  }

  /** A round's poll fails only when all five GetUpdates calls at the
      offset fail, and then with the last call's error, wrapped. */
  lemma PolledFails(poll: (int, nat) -> Result<seq<Update>, string>, asked: int)
    ensures Polled(poll, asked).Failure? <==> forall i :: 0 <= i < MaxCalls(Retries) ==> poll(asked, i).Failure?
    ensures Polled(poll, asked).Failure? ==>
              Polled(poll, asked).error == Remote("could not get updates", poll(asked, MaxCalls(Retries) - 1).error)
  {
    var fn := GetUpdates(poll, asked);
    FirstSuccessIff(fn, 0, MaxCalls(Retries));
    assert forall i: nat :: fn(i).Success? <==> poll(asked, i).Success?;
    if Polled(poll, asked).Failure? {
      FirstSuccessAt(fn, 0, MaxCalls(Retries), MaxCalls(Retries) - 1);
    }
  }

  /** The updates serve dispatches in `rounds` polls from `offset`: each
      round's batch, up to the first poll that fails for good. */
  function Handled(rounds: seq<(int, nat) -> Result<seq<Update>, string>>, offset: int): seq<Update>
    decreases |rounds|
  {
    if rounds == [] then []
    else
      match Polled(rounds[0], offset)
      case Failure(_) => []
      case Success(batch) => batch + Handled(rounds[1..], NextOffset(offset, batch))
  }

  /** The error serve returns within `rounds` polls from `offset`: that of
      the first poll that fails for good, if any does. */
  function PollError(rounds: seq<(int, nat) -> Result<seq<Update>, string>>, offset: int): Option<Error>
    decreases |rounds|
  {
    if rounds == [] then None
    else
      match Polled(rounds[0], offset)
      case Failure(e) => Some(e)
      case Success(batch) => PollError(rounds[1..], NextOffset(offset, batch))
  }

  /** One more round of serve: what Handled and PollError say of rounds[k]
      once the rounds before it handled `handled` and left the offset at
      `asked`. */
  lemma HandledRound(rounds: seq<(int, nat) -> Result<seq<Update>, string>>, k: nat, offset0: int, asked: int,
                     handled: seq<Update>, batch: seq<Update>, err: Option<Error>)
    requires k < |rounds|
    requires handled + Handled(rounds[k..], asked) == Handled(rounds, offset0)
    requires PollError(rounds[k..], asked) == PollError(rounds, offset0)
    requires Polled(rounds[k], asked).Failure? ==> err == Some(Polled(rounds[k], asked).error) && batch == []
    requires Polled(rounds[k], asked).Success? ==> err == None && batch == Polled(rounds[k], asked).value
    ensures err.None? ==>
              (handled + batch) + Handled(rounds[k + 1..], NextOffset(asked, batch)) == Handled(rounds, offset0)
              && PollError(rounds[k + 1..], NextOffset(asked, batch)) == PollError(rounds, offset0)
    ensures err.Some? ==> handled + batch == Handled(rounds, offset0) && err == PollError(rounds, offset0)
  {
    assert rounds[k..][0] == rounds[k] && rounds[k..][1..] == rounds[k + 1..];
    if err.Some? {
      assert batch == [] && handled + batch == handled;
    }
  }

  /** The sends of one more round, joined to the sends of the rounds before. */
  lemma SentRound(users: map<int, string>, admin: int, chats0: map<int, int>, handled: seq<Update>,
                  batch: seq<Update>, env: Env, sent0: seq<Send>, before: seq<Send>, sent: seq<Send>)
    requires |before| >= |sent0| && before[..|sent0|] == sent0
    requires RoutedAll(users, admin, chats0, handled, env, before[|sent0|..])
    requires |sent| >= |before| && sent[..|before|] == before
    requires RoutedAll(users, admin, ChatsAfter(chats0, handled), batch, env, sent[|before|..])
    ensures |sent| >= |sent0| && sent[..|sent0|] == sent0
    ensures RoutedAll(users, admin, chats0, handled + batch, env, sent[|sent0|..])
  {
    assert sent[..|sent0|] == before[..|sent0|];
    SplitSends(sent, before, |sent0|);
    ChainedConcat(chats0, handled, batch, RouteStep(users, admin, env), before[|sent0|..], sent[|before|..]);
  }

  // ---------------------------------------------------------------------
  // The server

  class Server {
    var users: map<int, string>
    var admin: int
    var chats: map<int, int>
    /** Every mustSendMessage call so far, in order. */
    var sent: seq<Send>
    /** params.Offset of the poll loop. */
    var offset: int

    constructor (users: map<int, string>, admin: int)
      requires admin != 0 && admin in users
      ensures this.users == users && this.admin == admin
      ensures chats == map[] && sent == [] && offset == 0
    {
      this.users := users;
      this.admin := admin;
      chats := map[];
      sent := [];
      offset := 0;
    }

    /** handleUpdateError (serve.go:136-147). */
    method ReportError(e: Error, context: string)
      modifies this`sent
      ensures sent == old(sent) + AdminReport(chats, admin, context, e)
    {
      if admin in chats {
        sent := sent + [Send(chats[admin], ErrorReport(context, e))];
      }
    }

    /** handleUpdate (serve.go:104-134). */
    method HandleUpdate(u: Update, env: Env)
      modifies this`chats, this`sent
      ensures chats == StoreIfAbsent(old(chats), u.message.from, u.message.chat)
      ensures |sent| >= |old(sent)| && sent[..|old(sent)|] == old(sent)
      ensures Routed(users, admin, chats, u.message, ParseMessage(users, u.message, env.floatOk, env.clock(u)),
                     env.append, sent[|old(sent)|..])
    {
      chats := StoreIfAbsent(chats, u.message.from, u.message.chat);
      var parsed := ParseMessage(users, u.message, env.floatOk, env.clock(u));
      if parsed.Failure? {
        ReportError(parsed.error, "could not parse message");
        assert sent[|old(sent)|..] == AdminReport(chats, admin, "could not parse message", parsed.error);
        return;
      }
      var p := parsed.value;
      var appendErr := env.append(Values(p));
      if appendErr.Some? {
        var e := Remote("could not append to sheet", appendErr.value);
        ReportError(e, "could not append to sheet");
        assert sent[|old(sent)|..] == AdminReport(chats, admin, "could not append to sheet", e);
        return;
      }
      Acknowledge(p, u.message);
    }

    /** The success path of handleUpdate (serve.go:118-133): the reply to
        the message's chat, then the notifications. */
    method Acknowledge(p: Payment, m: Message)
      modifies this`sent
      ensures |sent| >= |old(sent)| && sent[..|old(sent)|] == old(sent)
      ensures exists order :: Enumerates(order, Recipients(users, chats, m.from))
                              && sent[|old(sent)|..] == [Send(m.chat, Reply(p))] + Notes(order, chats, p)
    {
      var reply := Send(m.chat, Reply(p));
      sent := sent + [reply];
      Notify(p, m.from);
      ghost var order :| Enumerates(order, Recipients(users, chats, m.from))
                         && sent == old(sent) + [reply] + Notes(order, chats, p);
      assert sent[|old(sent)|..] == [reply] + Notes(order, chats, p);
    }

    /** The notification loop of handleUpdate (serve.go:121-133): one note
        to each registered user but the sender whose chat is known. */
    method Notify(p: Payment, from: int)
      modifies this`sent
      ensures exists order :: Enumerates(order, Recipients(users, chats, from))
                              && sent == old(sent) + Notes(order, chats, p)
    {
      var rs := Recipients(users, chats, from);
      var remaining := users.Keys;
      ghost var order: seq<int> := [];
      // `for uid := range s.users`, in an order Go leaves unspecified
      while exists uid :: uid in remaining
        invariant remaining <= users.Keys
        invariant Enumerates(order, rs - remaining)
        invariant sent == old(sent) + Notes(order, chats, p)
        decreases remaining
      {
        var uid :| uid in remaining;
        remaining := remaining - {uid};
        if uid == from {
          continue;
        }
        if uid !in chats {
          continue;
        }
        sent := sent + [Send(chats[uid], Note(p))];
        assert (order + [uid])[..|order|] == order;
        order := order + [uid];
      }
      assert rs - remaining == rs;
    }

    /** The dispatch loop of serve (serve.go:94-96): handle the updates of a
        batch one after another. */
    method DispatchBatch(updates: seq<Update>, env: Env)
      modifies this`chats, this`sent
      ensures chats == ChatsAfter(old(chats), updates)
      ensures |sent| >= |old(sent)| && sent[..|old(sent)|] == old(sent)
      ensures RoutedAll(users, admin, old(chats), updates, env, sent[|old(sent)|..])
    {
      ghost var chats0, sent0 := chats, sent;
      assert updates[..0] == [];
      for i := 0 to |updates|
        invariant chats == ChatsAfter(chats0, updates[..i])
        invariant |sent| >= |sent0| && sent[..|sent0|] == sent0
        invariant RoutedAll(users, admin, chats0, updates[..i], env, sent[|sent0|..])
      {
        ghost var before := sent;
        HandleUpdate(updates[i], env);
        assert updates[..i + 1][..i] == updates[..i];
        DispatchStep(users, admin, chats0, updates, i, env, sent0, before, sent);
      }
      assert updates[..|updates|] == updates;
    }

    /** One round of serve's loop (serve.go:84-100): poll with retries at
        the current offset, dispatch the batch in order, then move the
        offset past it. `poll` gives, for the offset asked and the attempt
        number, what GetUpdates returns; `batch` is the batch dispatched. */
    method PollRound(poll: (int, nat) -> Result<seq<Update>, string>, env: Env)
      returns (err: Option<Error>, ghost batch: seq<Update>)
      modifies this`chats, this`sent, this`offset
      ensures Polled(poll, old(offset)).Failure? ==>
                err == Some(Polled(poll, old(offset)).error) && batch == []
                && chats == old(chats) && sent == old(sent) && offset == old(offset)
      ensures Polled(poll, old(offset)).Success? ==> err == None && batch == Polled(poll, old(offset)).value
      ensures chats == ChatsAfter(old(chats), batch)
      ensures offset == NextOffset(old(offset), batch)
      ensures |sent| >= |old(sent)| && sent[..|old(sent)|] == old(sent)
      ensures RoutedAll(users, admin, old(chats), batch, env, sent[|old(sent)|..])
    {
      var getUpdates := GetUpdates(poll, offset);
      var calls, delays, r := WillRetry(getUpdates, Retries);
      if r.Failure? {
        return Some(r.error), [];
      }
      var updates: seq<Update> := r.value;
      DispatchBatch(updates, env);
      if |updates| > 0 {
        offset := updates[|updates| - 1].id + 1;
      }
      batch := updates;
      err := None;
    }

    /** A bounded run of serve (serve.go:76-102): rounds[k] is the chat API
        in the k-th round. The loop stops with the error of the first poll
        that still fails after its retries; `handled` lists the updates
        dispatched, in order. */
    method Serve(rounds: seq<(int, nat) -> Result<seq<Update>, string>>, env: Env)
      returns (err: Option<Error>, ghost handled: seq<Update>)
      modifies this`chats, this`sent, this`offset
      ensures handled == Handled(rounds, old(offset))
      ensures err == PollError(rounds, old(offset))
      ensures chats == ChatsAfter(old(chats), handled)
      ensures offset == NextOffset(old(offset), handled)
      ensures |sent| >= |old(sent)| && sent[..|old(sent)|] == old(sent)
      ensures RoutedAll(users, admin, old(chats), handled, env, sent[|old(sent)|..])
    {
      handled := [];
      err := None;
      ghost var chats0, sent0, offset0 := chats, sent, offset;
      assert rounds[0..] == rounds;
      for k := 0 to |rounds|
        invariant err == None
        invariant handled + Handled(rounds[k..], offset) == Handled(rounds, offset0)
        invariant PollError(rounds[k..], offset) == PollError(rounds, offset0)
        invariant chats == ChatsAfter(chats0, handled)
        invariant offset == NextOffset(offset0, handled)
        invariant |sent| >= |sent0| && sent[..|sent0|] == sent0
        invariant RoutedAll(users, admin, chats0, handled, env, sent[|sent0|..])
      {
        ghost var before, asked := sent, offset;
        ghost var batch;
        err, batch := PollRound(rounds[k], env);
        HandledRound(rounds, k, offset0, asked, handled, batch, err);
        SentRound(users, admin, chats0, handled, batch, env, sent0, before, sent);
        ChatsAfterConcat(chats0, handled, batch);
        NextOffsetConcat(offset0, handled, batch);
        handled := handled + batch;
        if err.Some? {
          return;
        }
      }
    }
  }

  /** NewServer (serve.go:31-53): parse the user list, then find the admin
      by name; fail if the list is malformed or no nonzero id carries the
      admin's name. */
  method NewServer(usersFlag: string, adminName: string) returns (r: Result<Server, Error>)
    ensures r.Success? ==> fresh(r.value) && r.value.admin != 0 && r.value.admin in r.value.users
    ensures r.Success? ==> UserList(usersFlag) == Success(r.value.users)
    ensures r.Success? ==> r.value.users[r.value.admin] == adminName
    ensures r.Success? ==> r.value.chats == map[] && r.value.sent == [] && r.value.offset == 0
    ensures UserList(usersFlag).Failure? ==> r == Failure(UserList(usersFlag).error)
    ensures UserList(usersFlag).Success? && r.Failure? ==>
              r.error == AdminNotFound
              && (AdminIds(UserList(usersFlag).value, adminName) == {} || 0 in AdminIds(UserList(usersFlag).value, adminName))
    ensures (UserList(usersFlag).Success? && AdminIds(UserList(usersFlag).value, adminName) != {}
             && 0 !in AdminIds(UserList(usersFlag).value, adminName)) ==> r.Success?
  {
    var users := ParseUsers(usersFlag);
    if users.Failure? {
      return Failure(users.error);
    }
    var admin := ResolveAdmin(users.value, adminName);
    if admin == 0 {
      return Failure(AdminNotFound);
    }
    var s := new Server(users.value, admin);
    return Success(s);
  }
}
