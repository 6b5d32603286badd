/** In-process fan-out: every open subscriber has a bounded queue that loses its
    oldest message when it is full. */
module EventBusModel {
  import opened Collections

  const QUEUE_SIZE := 256

  datatype Message = Message(channel: string, payload: string)

  /** The channels a subscriber asked for; None means all of them. */
  type Interest = Option<set<string>>

  function Wants(interest: Interest): Message -> bool {
    (m: Message) => interest == None || m.channel in interest.value
  }

  function Put(queue: seq<Message>, m: Message): seq<Message> {
    if |queue| < QUEUE_SIZE then queue + [m] else queue[1..] + [m]
  }

  // ── One subscriber's account ─────────────────────────────────────────────

  /** What happened to a message that left the queue. */
  datatype Fate = Received | Dropped

  function Kept(ms: seq<Message>, fates: seq<Fate>): seq<Message>
    requires |ms| == |fates|
  {
    if ms == [] then []
    else
      var n := |ms| - 1;
      Kept(ms[..n], fates[..n]) + if fates[n] == Received then [ms[n]] else []
  }

  function Drops(fates: seq<Fate>): nat {
    if fates == [] then 0
    else Drops(fates[..|fates| - 1]) + if fates[|fates| - 1] == Dropped then 1 else 0
  }

  /** `offered` are the messages published for the subscriber while it was open,
      `fates` what became of those no longer queued. */
  datatype Account = Account(offered: seq<Message>, fates: seq<Fate>, received: seq<Message>)

  ghost predicate Balanced(a: Account, queue: seq<Message>) {
    && |queue| <= QUEUE_SIZE
    && |a.fates| + |queue| == |a.offered|
    && queue == a.offered[|a.fates|..]
    && a.received == Kept(a.offered[..|a.fates|], a.fates)
  }

  function Published(a: Account, queue: seq<Message>, m: Message): Account {
    a.(offered := a.offered + [m],
       fates := if |queue| < QUEUE_SIZE then a.fates else a.fates + [Dropped])
  }

  function Taken(a: Account, m: Message): Account {
    a.(fates := a.fates + [Received], received := a.received + [m])
  }

  lemma KeptSnoc(ms: seq<Message>, fates: seq<Fate>, f: Fate)
    requires |fates| < |ms|
    ensures Kept(ms[..|fates| + 1], fates + [f])
      == Kept(ms[..|fates|], fates) + if f == Received then [ms[|fates|]] else []
    ensures Drops(fates + [f]) == Drops(fates) + if f == Dropped then 1 else 0
  {
    var n := |fates|;
    assert ms[..n + 1][..n] == ms[..n] && (fates + [f])[..n] == fates;
  }

  /** Publishing keeps the account balanced: a full queue drops exactly its
      oldest message. */
  lemma PublishBalances(a: Account, queue: seq<Message>, m: Message)
    requires Balanced(a, queue)
    ensures Balanced(Published(a, queue, m), Put(queue, m))
    ensures Drops(Published(a, queue, m).fates) == Drops(a.fates) + if |queue| < QUEUE_SIZE then 0 else 1
  {
    var b := Published(a, queue, m);
    assert b.offered[..|a.fates|] == a.offered[..|a.fates|];
    if |queue| == QUEUE_SIZE {
      KeptSnoc(b.offered, a.fates, Dropped);
    }
  }

  lemma TakeBalances(a: Account, queue: seq<Message>)
    requires Balanced(a, queue) && queue != []
    ensures Balanced(Taken(a, queue[0]), queue[1..])
    ensures Drops(Taken(a, queue[0]).fates) == Drops(a.fates)
  {
    KeptSnoc(a.offered, a.fates, Received);
  }

  lemma {:induction false} KeptIsSelection(ms: seq<Message>, fates: seq<Fate>) returns (at: seq<nat>)
    requires |ms| == |fates|
    ensures IsSelection(Kept(ms, fates), ms, at)
    ensures |ms| == |Kept(ms, fates)| + Drops(fates)
  {
    hide IsSelection;
    if ms == [] {
      at := [];
      SelectNothing(ms);
    } else {
      var n := |ms| - 1;
      at := KeptIsSelection(ms[..n], fates[..n]);
      assert ms == ms[..n] + [ms[n]];
      SelectionSnoc(Kept(ms[..n], fates[..n]), ms[..n], at, ms[n]);
      if fates[n] == Received {
        at := at + [n];
      }
    }
  }

  lemma {:induction false} AllKept(ms: seq<Message>, fates: seq<Fate>)
    requires |ms| == |fates| && Drops(fates) == 0
    ensures Kept(ms, fates) == ms
  {
    if ms == [] {
    } else {
      AllKept(ms[..|ms| - 1], fates[..|ms| - 1]);
      assert ms == ms[..|ms| - 1] + [ms[|ms| - 1]];
    }
  }

  /** What a balanced account means: the queue is exactly the last messages
      offered, the received ones are a subsequence of those before it in publish
      order, every offered message is received, queued or dropped, and nothing
      is dropped exactly when received and queued together are all of them. */
  lemma AccountMeaning(a: Account, queue: seq<Message>)
    requires Balanced(a, queue)
    ensures queue == a.offered[|a.offered| - |queue|..]
    ensures Subsequence(a.received, a.offered[..|a.offered| - |queue|])
    ensures |a.offered| == |a.received| + |queue| + Drops(a.fates)
    ensures Drops(a.fates) == 0 <==> a.received + queue == a.offered
  {
    var gone := a.offered[..|a.fates|];
    var at := KeptIsSelection(gone, a.fates);
    assert a.offered == gone + queue;
    if Drops(a.fates) == 0 {
      AllKept(gone, a.fates);
    }
  }

  // ── The bus ──────────────────────────────────────────────────────────────

  /** All drops of the subscribers 0..n-1. */
  function TotalDrops(accounts: map<nat, Account>, n: nat): nat {
    if n == 0 then 0
    else TotalDrops(accounts, n - 1) + if n - 1 in accounts then Drops(accounts[n - 1].fates) else 0
  }

  lemma {:induction false} TotalDropsUpdate(accounts: map<nat, Account>, q: nat, a: Account, n: nat)
    requires q in accounts && Drops(a.fates) >= Drops(accounts[q].fates)
    ensures TotalDrops(accounts[q := a], n)
      == TotalDrops(accounts, n) + if q < n then Drops(a.fates) - Drops(accounts[q].fates) else 0
  {
    if n == 0 {
    } else {
      TotalDropsUpdate(accounts, q, a, n - 1);
    }
  }

  lemma {:induction false} TotalDropsFresh(accounts: map<nat, Account>, q: nat, a: Account, n: nat)
    requires n <= q && Drops(a.fates) == 0
    ensures TotalDrops(accounts[q := a], n) == TotalDrops(accounts, n)
  {
    if n == 0 {
    } else {
      TotalDropsFresh(accounts, q, a, n - 1);
    }
  }

  function OnChannel(channel: string): Message -> bool {
    (m: Message) => m.channel == channel
  }

  /** Every queue ever opened has a balanced account, and the drop counter is
      the sum of all their drops. */
  ghost predicate Booked(queues: map<nat, seq<Message>>, accounts: map<nat, Account>, created: nat, dropped: nat) {
    && (forall q: nat :: q in queues <==> q < created)
    && (forall q: nat :: q in accounts <==> q < created)
    && (forall q: nat | q in queues :: Balanced(accounts[q], queues[q]))
    && dropped == TotalDrops(accounts, created)
  }

  /** An open subscriber has been offered exactly the messages published on its
      channels since it opened. */
  ghost predicate Offered(subscribers: map<nat, Interest>, accounts: map<nat, Account>, since: map<nat, nat>,
                          log: seq<Message>)
  {
    forall q: nat | q in subscribers ::
      && q in accounts && q in since && since[q] <= |log|
      && accounts[q].offered == Filter(log[since[q]..], Wants(subscribers[q]))
  }

  function CountOf(published: map<string, nat>, c: string): nat {
    if c in published then published[c] else 0
  }

  /** The per-channel counters count the log. */
  ghost predicate Counted(published: map<string, nat>, log: seq<Message>) {
    forall c :: CountOf(published, c) == |Filter(log, OnChannel(c))|
  }

  /** Queue identities are the numbers given out so far. */
  ghost predicate AllListed(accounts: map<nat, Account>, queues: map<nat, seq<Message>>, created: nat) {
    && (forall q: nat :: q in queues <==> q < created)
    && (forall q: nat :: q in accounts <==> q < created)
  }

  /** What the message makes of one queue and its account. */
  ghost predicate HasNow(account0: Account, queue0: seq<Message>, account: Account, queue: seq<Message>, m: Message) {
    queue == Put(queue0, m) && account.offered == account0.offered + [m]
  }

  /** Part way through a publish: the subscribers in `todo` are still to come,
      the others have the message or do not want it. */
  ghost predicate Delivering(accounts0: map<nat, Account>, queues0: map<nat, seq<Message>>,
                             accounts: map<nat, Account>, queues: map<nat, seq<Message>>,
                             subscribers: map<nat, Interest>, todo: set<nat>, m: Message, created: nat, dropped: nat)
  {
    && AllListed(accounts0, queues0, created) && AllListed(accounts, queues, created)
    && (forall q: nat | q in subscribers :: q < created)
    && (forall q: nat | q < created :: Balanced(accounts[q], queues[q]))
    && (forall q: nat | q < created ::
          if q in subscribers && q !in todo && Wants(subscribers[q])(m)
          then HasNow(accounts0[q], queues0[q], accounts[q], queues[q], m)
          else queues[q] == queues0[q] && accounts[q] == accounts0[q])
    && dropped == TotalDrops(accounts, created)
  }

  lemma DeliveryStarts(accounts: map<nat, Account>, queues: map<nat, seq<Message>>, subscribers: map<nat, Interest>,
                       since: map<nat, nat>, log: seq<Message>, m: Message, created: nat, dropped: nat)
    requires Booked(queues, accounts, created, dropped) && Offered(subscribers, accounts, since, log)
    ensures Delivering(accounts, queues, accounts, queues, subscribers, subscribers.Keys, m, created, dropped)
  {
    hide Balanced, TotalDrops, Wants, Filter;
  }

  lemma DeliverUnwanted(accounts0: map<nat, Account>, queues0: map<nat, seq<Message>>,
                        accounts: map<nat, Account>, queues: map<nat, seq<Message>>,
                        subscribers: map<nat, Interest>, todo: set<nat>, m: Message, created: nat, dropped: nat, q: nat)
    requires Delivering(accounts0, queues0, accounts, queues, subscribers, todo, m, created, dropped)
    requires q in todo && q in subscribers && !Wants(subscribers[q])(m)
    ensures Delivering(accounts0, queues0, accounts, queues, subscribers, todo - {q}, m, created, dropped)
  {
    hide Balanced, TotalDrops, Drops, Wants, Put;
  }

  /** The account and queue of one subscriber that has the message now. */
  lemma DeliverUpdate(accounts0: map<nat, Account>, queues0: map<nat, seq<Message>>,
                      accounts: map<nat, Account>, queues: map<nat, seq<Message>>,
                      subscribers: map<nat, Interest>, todo: set<nat>, m: Message, created: nat, dropped: nat, q: nat,
                      a: Account, queue: seq<Message>, total: nat)
    requires Delivering(accounts0, queues0, accounts, queues, subscribers, todo, m, created, dropped)
    requires q in todo && q in subscribers && Wants(subscribers[q])(m) && q in queues0 && q in accounts0
    requires Balanced(a, queue) && HasNow(accounts0[q], queues0[q], a, queue, m)
    requires total == TotalDrops(accounts[q := a], created)
    ensures Delivering(accounts0, queues0, accounts[q := a], queues[q := queue], subscribers, todo - {q}, m, created, total)
  {
    hide Balanced, TotalDrops, Wants, HasNow;
  }

  /** A subscriber still to come has the account and queue it started with. */
  lemma StillDue(accounts0: map<nat, Account>, queues0: map<nat, seq<Message>>,
                 accounts: map<nat, Account>, queues: map<nat, seq<Message>>,
                 subscribers: map<nat, Interest>, todo: set<nat>, m: Message, created: nat, dropped: nat, q: nat)
    requires Delivering(accounts0, queues0, accounts, queues, subscribers, todo, m, created, dropped)
    requires q in todo && q in subscribers
    ensures q in accounts && q in queues && q in accounts0 && q in queues0
    ensures accounts[q] == accounts0[q] && queues[q] == queues0[q] && Balanced(accounts[q], queues[q])
    ensures dropped == TotalDrops(accounts, created)
  {
    hide Balanced, TotalDrops, Wants;
  }

  lemma DeliverWanted(accounts0: map<nat, Account>, queues0: map<nat, seq<Message>>,
                      accounts: map<nat, Account>, queues: map<nat, seq<Message>>,
                      subscribers: map<nat, Interest>, todo: set<nat>, m: Message, created: nat, dropped: nat, q: nat)
    requires Delivering(accounts0, queues0, accounts, queues, subscribers, todo, m, created, dropped)
    requires q in todo && q in subscribers && Wants(subscribers[q])(m)
    ensures q in accounts && q in queues
    ensures Delivering(accounts0, queues0, accounts[q := Published(accounts[q], queues[q], m)], queues[q := Put(queues[q], m)],
                       subscribers, todo - {q}, m, created, dropped + if |queues[q]| < QUEUE_SIZE then 0 else 1)
  {
    StillDue(accounts0, queues0, accounts, queues, subscribers, todo, m, created, dropped, q);
    var a := Published(accounts[q], queues[q], m);
    assert a.offered == accounts0[q].offered + [m];
    assert HasNow(accounts0[q], queues0[q], a, Put(queues[q], m), m);
    hide Balanced, TotalDrops, Drops, Wants, Put, Delivering, Published, HasNow;
    PublishBalances(accounts[q], queues[q], m);
    TotalDropsUpdate(accounts, q, a, created);
    DeliverUpdate(accounts0, queues0, accounts, queues, subscribers, todo, m, created, dropped, q, a, Put(queues[q], m),
                  dropped + if |queues[q]| < QUEUE_SIZE then 0 else 1);
  }

  /** One subscriber is dealt with. */
  lemma DeliverOne(accounts0: map<nat, Account>, queues0: map<nat, seq<Message>>,
                   accounts: map<nat, Account>, queues: map<nat, seq<Message>>,
                   subscribers: map<nat, Interest>, todo: set<nat>, m: Message, created: nat, dropped: nat, q: nat)
    requires Delivering(accounts0, queues0, accounts, queues, subscribers, todo, m, created, dropped)
    requires q in todo && q in subscribers
    ensures q in accounts && q in queues
    ensures !Wants(subscribers[q])(m) ==>
      Delivering(accounts0, queues0, accounts, queues, subscribers, todo - {q}, m, created, dropped)
    ensures Wants(subscribers[q])(m) ==>
      Delivering(accounts0, queues0, accounts[q := Published(accounts[q], queues[q], m)], queues[q := Put(queues[q], m)],
                 subscribers, todo - {q}, m, created, dropped + if |queues[q]| < QUEUE_SIZE then 0 else 1)
  {
    assert q in accounts && q in queues by {
      hide Balanced, TotalDrops, Wants;
    }
    hide Delivering, Published, Put, Wants;
    if Wants(subscribers[q])(m) {
      DeliverWanted(accounts0, queues0, accounts, queues, subscribers, todo, m, created, dropped, q);
    } else {
      DeliverUnwanted(accounts0, queues0, accounts, queues, subscribers, todo, m, created, dropped, q);
    }
  }

  lemma OfferedSnoc(log: seq<Message>, m: Message, n: nat, p: Message -> bool)
    requires n <= |log|
    ensures Filter((log + [m])[n..], p) == Filter(log[n..], p) + if p(m) then [m] else []
  {
    assert (log + [m])[n..] == log[n..] + [m];
    assert (log[n..] + [m])[..|log[n..]|] == log[n..];
  }

  lemma DeliveryEnds(accounts0: map<nat, Account>, queues0: map<nat, seq<Message>>,
                     accounts: map<nat, Account>, queues: map<nat, seq<Message>>,
                     subscribers: map<nat, Interest>, since: map<nat, nat>, log: seq<Message>, m: Message,
                     created: nat, dropped: nat)
    requires Delivering(accounts0, queues0, accounts, queues, subscribers, {}, m, created, dropped)
    requires Offered(subscribers, accounts0, since, log)
    ensures Booked(queues, accounts, created, dropped) && Offered(subscribers, accounts, since, log + [m])
    ensures queues.Keys == queues0.Keys
    ensures forall q: nat | q in queues ::
      queues[q] == if q in subscribers && Wants(subscribers[q])(m) then Put(queues0[q], m) else queues0[q]
  {
    hide Balanced, TotalDrops, Wants, Filter;
    forall q: nat | q in subscribers
      ensures Filter((log + [m])[since[q]..], Wants(subscribers[q]))
        == Filter(log[since[q]..], Wants(subscribers[q])) + if Wants(subscribers[q])(m) then [m] else []
    {
      OfferedSnoc(log, m, since[q], Wants(subscribers[q]));
    }
    forall q: nat | q in subscribers
      ensures accounts[q].offered == accounts0[q].offered + if Wants(subscribers[q])(m) then [m] else []
    {
      if !Wants(subscribers[q])(m) {
        assert accounts0[q].offered + [] == accounts0[q].offered;
      }
    }
  }

  /** Which part of the log a subscriber is offered: everything when it named no
      channels, otherwise exactly what was published on the channels it named. */
  ghost predicate IsShare(offered: seq<Message>, part: seq<Message>, interest: Interest) {
    match interest
    case None => offered == part
    case Some(channels) =>
      exists at :: IsSelection(offered, part, at)
        && forall i | 0 <= i < |part| :: i in at <==> part[i].channel in channels
  }

  lemma SelectionBounds(xs: seq<Message>, ys: seq<Message>, at: seq<nat>)
    requires IsSelection(xs, ys, at)
    ensures |ys| !in at
  {
  }

  lemma {:induction false} ShareOf(part: seq<Message>, channels: set<string>) returns (at: seq<nat>)
    ensures IsSelection(Filter(part, Wants(Some(channels))), part, at)
    ensures forall i | 0 <= i < |part| :: i in at <==> part[i].channel in channels
  {
    hide IsSelection;
    if part == [] {
      at := [];
      SelectNothing(part);
    } else {
      var n := |part| - 1;
      at := ShareOf(part[..n], channels);
      assert part == part[..n] + [part[n]];
      SelectionSnoc(Filter(part[..n], Wants(Some(channels))), part[..n], at, part[n]);
      SelectionBounds(Filter(part[..n], Wants(Some(channels))), part[..n], at);
      if part[n].channel in channels {
        at := at + [n];
      }
    }
  }

  /** What an open subscriber has been offered, at every moment of every run. */
  lemma OfferedIsShare(subscribers: map<nat, Interest>, accounts: map<nat, Account>, since: map<nat, nat>,
                       log: seq<Message>, q: nat)
    requires Offered(subscribers, accounts, since, log) && q in subscribers
    ensures q in accounts && q in since && since[q] <= |log|
    ensures IsShare(accounts[q].offered, log[since[q]..], subscribers[q])
  {
    var part := log[since[q]..];
    match subscribers[q] {
      case None => FilterAll(part, Wants(None));
      case Some(channels) => var at := ShareOf(part, channels);
    }
  }

  lemma NothingOffered(p: Message -> bool)
    ensures Filter([], p) == []
  {
  }

  lemma FreshAccount(accounts: map<nat, Account>, q: nat)
    ensures Balanced(Account([], [], []), [])
    ensures Drops(Account([], [], []).fates) == 0
    ensures TotalDrops(accounts[q := Account([], [], [])], q + 1) == TotalDrops(accounts, q)
  {
    TotalDropsFresh(accounts, q, Account([], [], []), q);
  }

  lemma OpenKeeps(queues: map<nat, seq<Message>>, accounts: map<nat, Account>, created: nat, dropped: nat,
                  subscribers: map<nat, Interest>, since: map<nat, nat>, log: seq<Message>, interest: Interest)
    requires Booked(queues, accounts, created, dropped) && Offered(subscribers, accounts, since, log)
    ensures Booked(queues[created := []], accounts[created := Account([], [], [])], created + 1, dropped)
    ensures Offered(subscribers[created := interest], accounts[created := Account([], [], [])],
                    since[created := |log|], log)
  {
    hide Balanced, TotalDrops, Wants, Filter;
    FreshAccount(accounts, created);
    NothingOffered(Wants(interest));
    assert log[|log|..] == [];
  }

  lemma TakeKeeps(queues: map<nat, seq<Message>>, accounts: map<nat, Account>, created: nat, dropped: nat,
                  subscribers: map<nat, Interest>, since: map<nat, nat>, log: seq<Message>, q: nat)
    requires Booked(queues, accounts, created, dropped) && Offered(subscribers, accounts, since, log)
    requires q in queues && queues[q] != []
    ensures q in accounts
    ensures var a := Taken(accounts[q], queues[q][0]);
      && Booked(queues[q := queues[q][1..]], accounts[q := a], created, dropped)
      && Offered(subscribers, accounts[q := a], since, log)
  {
    hide Balanced, TotalDrops, Wants, Filter, Drops;
    TakeBalances(accounts[q], queues[q]);
    TotalDropsUpdate(accounts, q, Taken(accounts[q], queues[q][0]), created);
  }

  lemma ListedQueue(queues: map<nat, seq<Message>>, accounts: map<nat, Account>, created: nat, dropped: nat, q: nat)
    requires Booked(queues, accounts, created, dropped)
    ensures q in queues <==> q in accounts
  {
    hide Balanced, TotalDrops;
  }

  lemma WantsIff(interest: Interest, m: Message)
    ensures Wants(interest)(m) <==> interest == None || m.channel in interest.value
  {
  }

  lemma CountSnoc(log: seq<Message>, m: Message, c: string)
    ensures |Filter(log + [m], OnChannel(c))| == |Filter(log, OnChannel(c))| + if m.channel == c then 1 else 0
  {
    assert (log + [m])[..|log|] == log;
  }

  lemma CountKeeps(published: map<string, nat>, log: seq<Message>, m: Message)
    requires Counted(published, log)
    ensures Counted(published[m.channel := CountOf(published, m.channel) + 1], log + [m])
  {
    hide Filter;
    forall c {
      CountSnoc(log, m, c);
    }
  }

  /** Queue identities are numbers in order of creation. */
  class EventBus {
    var subscribers: map<nat, Interest>
    var queues: map<nat, seq<Message>>
    var created: nat
    var dropped: nat
    var published: map<string, nat>

    /** Everything ever published, and for each queue ever opened its account
        and the length of `log` when it was opened. */
    ghost var log: seq<Message>
    ghost var accounts: map<nat, Account>
    ghost var since: map<nat, nat>

    ghost predicate Valid()
      reads this
    {
      && Booked(queues, accounts, created, dropped)
      && Offered(subscribers, accounts, since, log)
      && Counted(published, log)
    }

    constructor ()
      ensures Valid() && subscribers == map[] && log == [] && dropped == 0
    {
      subscribers, queues, created, dropped, published := map[], map[], 0, 0, map[];
      log, accounts, since := [], map[], map[];
    }

    method Open(interest: Interest) returns (q: nat)
      requires Valid()
      modifies this
      ensures Valid() && q == old(created) && created == q + 1
      ensures subscribers == old(subscribers)[q := interest]
      ensures queues == old(queues)[q := []] && accounts == old(accounts)[q := Account([], [], [])]
      ensures log == old(log) && dropped == old(dropped)
    {
      hide Booked, Offered, Counted;
      q := created;
      OpenKeeps(queues, accounts, created, dropped, subscribers, since, log, interest);
      subscribers := subscribers[q := interest];
      queues := queues[q := []];
      created := created + 1;
      accounts := accounts[q := Account([], [], [])];
      since := since[q := |log|];
    }

    method Close(q: nat)
      requires Valid()
      modifies this`subscribers
      ensures Valid() && subscribers == old(subscribers) - {q}
    {
      hide Booked, Counted, Filter;
      subscribers := subscribers - {q};
    }

    /** A consumer takes the next message of its queue. */
    method Take(q: nat) returns (m: Message)
      requires Valid() && q in queues && queues[q] != []
      modifies this`queues, this`accounts
      ensures Valid() && m == old(queues)[q][0] && q in old(accounts)
      ensures queues == old(queues)[q := old(queues)[q][1..]]
      ensures accounts == old(accounts)[q := Taken(old(accounts)[q], m)]
    {
      hide Booked, Offered, Counted;
      m := queues[q][0];
      TakeKeeps(queues, accounts, created, dropped, subscribers, since, log, q);
      accounts := accounts[q := Taken(accounts[q], m)];
      queues := queues[q := queues[q][1..]];
    }

    method Publish(payload: string, channel: string)
      requires Valid()
      modifies this
      ensures Valid() && log == old(log) + [Message(channel, payload)]
      ensures subscribers == old(subscribers) && created == old(created) && queues.Keys == old(queues).Keys
      ensures forall q: nat | q in subscribers ::
        && q in queues && IsShare(accounts[q].offered, log[since[q]..], subscribers[q])
      ensures forall q: nat | q in queues ::
        queues[q] == if q in subscribers && (subscribers[q] == None || channel in subscribers[q].value)
                     then (if |old(queues)[q]| < 256 then old(queues)[q] else old(queues)[q][1..]) + [Message(channel, payload)]
                     else old(queues)[q]
    {
      hide Booked, Offered, Counted, Delivering, Wants, IsShare;
      var m := Message(channel, payload);
      CountKeeps(published, log, m);
      published := published[channel := CountOf(published, channel) + 1];
      ghost var before, accounts0, queues0 := log, accounts, queues;
      log := log + [m];
      var todo := subscribers.Keys;
      DeliveryStarts(accounts, queues, subscribers, since, before, m, created, dropped);
      while todo != {}
        invariant todo <= subscribers.Keys && subscribers == old(subscribers)
        invariant created == old(created) && since == old(since) && log == before + [m]
        invariant Delivering(accounts0, queues0, accounts, queues, subscribers, todo, m, created, dropped)
        invariant Counted(published, log)
        decreases |todo|
      {
        var q :| q in todo;
        DeliverOne(accounts0, queues0, accounts, queues, subscribers, todo, m, created, dropped, q);
        todo := todo - {q};
        if Wants(subscribers[q])(m) {
          accounts := accounts[q := Published(accounts[q], queues[q], m)];
          if |queues[q]| < QUEUE_SIZE {
            queues := queues[q := queues[q] + [m]];
          } else {
            dropped := dropped + 1;
            queues := queues[q := queues[q][1..] + [m]];
          }
        }
      }
      DeliveryEnds(accounts0, queues0, accounts, queues, subscribers, since, before, m, created, dropped);
      forall q: nat | q in subscribers
        ensures q in queues && q in accounts && q in since && since[q] <= |log|
        ensures IsShare(accounts[q].offered, log[since[q]..], subscribers[q])
        ensures Wants(subscribers[q])(m) <==> subscribers[q] == None || channel in subscribers[q].value
      {
        OfferedIsShare(subscribers, accounts, since, log, q);
        ListedQueue(queues, accounts, created, dropped, q);
        WantsIff(subscribers[q], m);
      }
    }

    method PublishMany(payloads: seq<string>, channel: string)
      requires Valid()
      modifies this
      ensures Valid() && log == old(log) + seq(|payloads|, i requires 0 <= i < |payloads| => Message(channel, payloads[i]))
      ensures subscribers == old(subscribers)
    {
      hide Booked, Offered, Counted;
      for n := 0 to |payloads|
        invariant Valid() && subscribers == old(subscribers)
        invariant log == old(log) + seq(n, i requires 0 <= i < n => Message(channel, payloads[i]))
      {
        Publish(payloads[n], channel);
      }
    }
  }
}
