/** The event bus: one broadcast channel a repository, and one that gets everything.
    Receivers do not lag here. */
module EventBus {
  import opened Common

  /** A channel key: the empty string, "__all__", or any other string. */
  datatype Key = NoRepo | All | Repo(id: nat)

  datatype Event = Event(repo: Key, session: nat, kind: string, id: nat)

  /** A publish that holds a clone of its repository's sender. */
  datatype Clone = Held(e: Event, channel: nat)

  datatype Receiver = Receiver(channel: nat, stream: seq<Event>)

  /** `channels` is the bus: the sender of each key, by channel number. `cloned` are the
      publishes that hold a clone of their repository's sender but have not sent, `sent`
      those that have yet to send on the all channel. */
  datatype State = State(channels: map<Key, nat>, receivers: map<nat, Receiver>,
                         cloned: multiset<Clone>, sent: multiset<Event>, next: nat)

  datatype Action =
    | Clone(e: Event)
    | SendRepo(e: Event, channel: nat)
    | SendAll(e: Event)
    | Publish(e: Event)               // the three in one go
    | Subscribe(key: Key, r: nat)
    | Drop(r: nat)
    | Retain(key: Key)             // cleanup_idle, one key
    | RemoveRepo(key: Key)

  const START := State(map[All := 0], map[], multiset{}, multiset{}, 1)

  function Ensure(st: State, key: Key): State {
    if key in st.channels then st else st.(channels := st.channels[key := st.next], next := st.next + 1)
  }

  function Deliver(receivers: map<nat, Receiver>, channel: nat, e: Event): map<nat, Receiver> {
    map r | r in receivers ::
      if receivers[r].channel == channel then receivers[r].(stream := receivers[r].stream + [e]) else receivers[r]
  }

  predicate HasReceivers(receivers: map<nat, Receiver>, channel: nat) {
    exists r :: r in receivers && receivers[r].channel == channel
  }

  function ToAll(st: State, e: Event): State {
    if All in st.channels then st.(receivers := Deliver(st.receivers, st.channels[All], e)) else st
  }

  function Published(st: State, e: Event): State {
    if e.repo == NoRepo then ToAll(st, e)
    else
      var ready := Ensure(st, e.repo);
      ToAll(ready.(receivers := Deliver(ready.receivers, ready.channels[e.repo], e)), e)
  }

  function Subscribed(st: State, key: Key, r: nat): State {
    var ready := Ensure(st, key);
    ready.(receivers := ready.receivers[r := Receiver(ready.channels[key], [])])
  }

  function Removed(st: State, key: Key): State {
    if key == All then st else st.(channels := st.channels - {key})
  }

  predicate Idle(st: State, key: Key) {
    key in st.channels && !HasReceivers(st.receivers, st.channels[key])
  }

  function Step(st: State, a: Action): State {
    match a
    case Clone(e) =>
      if e.repo == NoRepo then st.(sent := st.sent + multiset{e})
      else Ensure(st, e.repo).(cloned := st.cloned + multiset{Held(e, Ensure(st, e.repo).channels[e.repo])})
    case SendRepo(e, channel) =>
      if Held(e, channel) !in st.cloned then st
      else st.(receivers := Deliver(st.receivers, channel, e), cloned := st.cloned - multiset{Held(e, channel)},
               sent := st.sent + multiset{e})
    case SendAll(e) => if e !in st.sent then st else ToAll(st, e).(sent := st.sent - multiset{e})
    case Publish(e) => Published(st, e)
    case Subscribe(key, r) => if r in st.receivers then st else Subscribed(st, key, r)
    case Drop(r) => st.(receivers := st.receivers - {r})
    case Retain(key) => if Idle(st, key) then Removed(st, key) else st
    case RemoveRepo(key) => Removed(st, key)
  }

  function Run(st: State, actions: seq<Action>): State {
    if actions == [] then st else Step(Run(st, actions[..|actions| - 1]), actions[|actions| - 1])
  }

  // ---- Channels and their keys ----

  /** Channel numbers are given out once: a number stands for one key for ever. */
  ghost predicate Inv(st: State) {
    && All in st.channels
    && (forall k | k in st.channels :: st.channels[k] < st.next)
    && (forall j, k | j in st.channels && k in st.channels && j != k :: st.channels[j] != st.channels[k])
    && (forall r | r in st.receivers :: st.receivers[r].channel < st.next)
    && (forall c | c in st.cloned :: c.channel < st.next)
    && (forall c, k | c in st.cloned && k in st.channels && st.channels[k] == c.channel :: k == c.e.repo)
  }

  lemma EnsureKeeps(st: State, key: Key)
    requires Inv(st)
    ensures Inv(Ensure(st, key))
  {
  }

  lemma ToAllKeeps(st: State, e: Event)
    requires Inv(st)
    ensures Inv(ToAll(st, e))
  {
  }

  lemma DeliverKeeps(st: State, channel: nat, e: Event)
    requires Inv(st)
    ensures Inv(st.(receivers := Deliver(st.receivers, channel, e)))
  {
  }

  lemma PublishedKeeps(st: State, e: Event)
    requires Inv(st)
    ensures Inv(Published(st, e))
  {
    if e.repo == NoRepo {
      ToAllKeeps(st, e);
    } else {
      EnsureKeeps(st, e.repo);
      var ready := Ensure(st, e.repo);
      DeliverKeeps(ready, ready.channels[e.repo], e);
      ToAllKeeps(ready.(receivers := Deliver(ready.receivers, ready.channels[e.repo], e)), e);
    }
  }

  lemma SubscribedKeeps(st: State, key: Key, r: nat)
    requires Inv(st)
    ensures Inv(Subscribed(st, key, r))
  {
    EnsureKeeps(st, key);
  }

  lemma CloneKeeps(st: State, e: Event)
    requires Inv(st)
    ensures Inv(Step(st, Action.Clone(e)))
  {
    EnsureKeeps(st, e.repo);
  }

  lemma SendRepoKeeps(st: State, e: Event, channel: nat)
    requires Inv(st)
    ensures Inv(Step(st, SendRepo(e, channel)))
  {
    DeliverKeeps(st, channel, e);
  }

  lemma SendAllKeeps(st: State, e: Event)
    requires Inv(st)
    ensures Inv(Step(st, SendAll(e)))
  {
    ToAllKeeps(st, e);
  }

  lemma RemovedKeeps(st: State, key: Key)
    requires Inv(st)
    ensures Inv(Removed(st, key))
  {
  }

  lemma PublishKeeps(st: State, e: Event)
    requires Inv(st)
    ensures Inv(Step(st, Publish(e)))
  {
    PublishedKeeps(st, e);
  }

  lemma SubscribeKeeps(st: State, key: Key, r: nat)
    requires Inv(st)
    ensures Inv(Step(st, Subscribe(key, r)))
  {
    SubscribedKeeps(st, key, r);
  }

  lemma DropKeeps(st: State, r: nat)
    requires Inv(st)
    ensures Inv(Step(st, Drop(r)))
  {
  }

  lemma RetainKeeps(st: State, key: Key)
    requires Inv(st)
    ensures Inv(Step(st, Retain(key)))
  {
    RemovedKeeps(st, key);
    assert Step(st, Retain(key)) == Removed(st, key) || Step(st, Retain(key)) == st;
  }

  lemma RemoveKeeps(st: State, key: Key)
    requires Inv(st)
    ensures Inv(Step(st, RemoveRepo(key)))
  {
    RemovedKeeps(st, key);
    assert Step(st, RemoveRepo(key)) == Removed(st, key);
  }

  lemma StepKeeps(st: State, a: Action)
    requires Inv(st)
    ensures Inv(Step(st, a))
  {
    match a
    case Clone(e) => CloneKeeps(st, e);
    case SendRepo(e, channel) => SendRepoKeeps(st, e, channel);
    case SendAll(e) => SendAllKeeps(st, e);
    case Publish(e) => PublishKeeps(st, e);
    case Subscribe(key, r) => SubscribeKeeps(st, key, r);
    case Drop(r) => DropKeeps(st, r);
    case Retain(key) => RetainKeeps(st, key);
    case RemoveRepo(key) => RemoveKeeps(st, key);
  }

  lemma {:induction false} RunKeeps(st: State, actions: seq<Action>)
    requires Inv(st)
    ensures Inv(Run(st, actions))
  {
    if actions != [] {
      RunKeeps(st, actions[..|actions| - 1]);
      StepKeeps(Run(st, actions[..|actions| - 1]), actions[|actions| - 1]);
    }
  }

  // ---- Cleanup ----

  ghost predicate Connected(st: State, r: nat, key: Key) {
    r in st.receivers && key in st.channels && st.receivers[r].channel == st.channels[key]
  }

  predicate Spares(x: Action, r: nat, key: Key) {
    x != Drop(r) && (x != RemoveRepo(key) || key == All)
  }

  /** Whatever happens besides, cleanups included, a receiver stays on the channel in the
      bus until it is dropped or its repository is removed, and removing the all key
      removes nothing. */
  lemma {:induction false} OnlyRemovalDisconnects(st: State, actions: seq<Action>, r: nat, key: Key)
    requires Connected(st, r, key)
    requires forall x | x in actions :: Spares(x, r, key)
    ensures Connected(Run(st, actions), r, key) && Run(st, actions).channels[key] == st.channels[key]
  {
    if actions != [] {
      var last := actions[|actions| - 1];
      assert last in actions;
      OnlyRemovalDisconnects(st, actions[..|actions| - 1], r, key);
      ConnectedStep(Run(st, actions[..|actions| - 1]), last, r, key);
    }
  }

  lemma ConnectedStep(st: State, x: Action, r: nat, key: Key)
    requires Connected(st, r, key) && Spares(x, r, key)
    ensures Connected(Step(st, x), r, key) && Step(st, x).channels[key] == st.channels[key]
  {
    match x
    case Retain(k) => RetainConnects(st, k, r, key);
    case RemoveRepo(_) =>
    case Drop(_) =>
    case Subscribe(k, s) => SubscribeConnects(st, k, s, r, key);
    case Publish(e) => PublishConnects(st, e, r, key);
    case Clone(e) => EnsureConnects(st, e.repo, r, key);
    case SendRepo(e, c) => SendRepoConnects(st, e, c, r, key);
    case SendAll(e) => SendAllConnects(st, e, r, key);
  }

  lemma SubscribeConnects(st: State, k: Key, s: nat, r: nat, key: Key)
    requires Connected(st, r, key)
    ensures Connected(Step(st, Subscribe(k, s)), r, key) && Step(st, Subscribe(k, s)).channels[key] == st.channels[key]
  {
    EnsureConnects(st, k, r, key);
  }

  lemma SendRepoConnects(st: State, e: Event, c: nat, r: nat, key: Key)
    requires Connected(st, r, key)
    ensures Connected(Step(st, SendRepo(e, c)), r, key) && Step(st, SendRepo(e, c)).channels == st.channels
  {
  }

  lemma SendAllConnects(st: State, e: Event, r: nat, key: Key)
    requires Connected(st, r, key)
    ensures Connected(Step(st, SendAll(e)), r, key) && Step(st, SendAll(e)).channels == st.channels
  {
  }

  lemma RetainConnects(st: State, k: Key, r: nat, key: Key)
    requires Connected(st, r, key)
    ensures Connected(Step(st, Retain(k)), r, key) && Step(st, Retain(k)).channels[key] == st.channels[key]
  {
    assert k == key ==> HasReceivers(st.receivers, st.channels[key]);
  }

  lemma PublishConnects(st: State, e: Event, r: nat, key: Key)
    requires Connected(st, r, key)
    ensures Connected(Published(st, e), r, key) && Published(st, e).channels[key] == st.channels[key]
  {
    EnsureConnects(st, e.repo, r, key);
  }

  lemma EnsureConnects(st: State, k: Key, r: nat, key: Key)
    requires Connected(st, r, key)
    ensures Connected(Ensure(st, k), r, key) && Ensure(st, k).channels[key] == st.channels[key]
  {
  }

  /** A receiver whose channel is neither in the bus nor held by a publish under way. */
  ghost predicate CutOff(st: State, r: nat) {
    && r in st.receivers
    && (forall k | k in st.channels :: st.channels[k] != st.receivers[r].channel)
    && (forall c | c in st.cloned :: c.channel != st.receivers[r].channel)
  }

  lemma CutOffToAll(st: State, e: Event, r: nat)
    requires CutOff(st, r)
    ensures CutOff(ToAll(st, e), r) && ToAll(st, e).receivers[r] == st.receivers[r]
  {
  }

  lemma CutOffEnsure(st: State, k: Key, r: nat)
    requires Inv(st) && CutOff(st, r)
    ensures CutOff(Ensure(st, k), r) && Ensure(st, k).receivers == st.receivers
  {
  }

  lemma CutOffSubscribe(st: State, k: Key, s: nat, r: nat)
    requires Inv(st) && CutOff(st, r)
    ensures CutOff(Step(st, Subscribe(k, s)), r) && Step(st, Subscribe(k, s)).receivers[r] == st.receivers[r]
  {
    CutOffEnsure(st, k, r);
  }

  lemma CutOffPublish(st: State, e: Event, r: nat)
    requires Inv(st) && CutOff(st, r)
    ensures CutOff(Published(st, e), r) && Published(st, e).receivers[r] == st.receivers[r]
  {
    if e.repo == NoRepo {
      CutOffToAll(st, e, r);
    } else {
      CutOffEnsure(st, e.repo, r);
      var ready := Ensure(st, e.repo);
      CutOffToAll(ready.(receivers := Deliver(ready.receivers, ready.channels[e.repo], e)), e, r);
    }
  }

  lemma CutOffClone(st: State, e: Event, r: nat)
    requires Inv(st) && CutOff(st, r)
    ensures CutOff(Step(st, Action.Clone(e)), r) && Step(st, Action.Clone(e)).receivers[r] == st.receivers[r]
  {
    CutOffEnsure(st, e.repo, r);
  }

  lemma CutOffSendRepo(st: State, e: Event, c: nat, r: nat)
    requires CutOff(st, r)
    ensures CutOff(Step(st, SendRepo(e, c)), r) && Step(st, SendRepo(e, c)).receivers[r] == st.receivers[r]
  {
    if Held(e, c) in st.cloned { assert c != st.receivers[r].channel; }
  }

  lemma CutOffStep(st: State, x: Action, r: nat)
    requires Inv(st) && CutOff(st, r) && x != Drop(r)
    ensures CutOff(Step(st, x), r) && Step(st, x).receivers[r] == st.receivers[r]
  {
    match x
    case Subscribe(k, s) => CutOffSubscribe(st, k, s, r);
    case Publish(e) => CutOffPublish(st, e, r);
    case Clone(e) => CutOffClone(st, e, r);
    case SendRepo(e, c) => CutOffSendRepo(st, e, c, r);
    case SendAll(e) => CutOffToAll(st, e, r);
    case Drop(_) =>
    case Retain(_) =>
    case RemoveRepo(_) =>
  }

  /** Once cut off, a receiver never gets another event, even when its repository is published
      to or subscribed to again. */
  lemma {:induction false} CutOffHearsNothing(st: State, actions: seq<Action>, r: nat)
    requires Inv(st) && CutOff(st, r) && Drop(r) !in actions
    ensures Inv(Run(st, actions)) && CutOff(Run(st, actions), r)
    ensures Run(st, actions).receivers[r].stream == st.receivers[r].stream
  {
    if actions != [] {
      var front, last := actions[..|actions| - 1], actions[|actions| - 1];
      assert last in actions;
      CutOffHearsNothing(st, front, r);
      CutOffStep(Run(st, front), last, r);
      StepKeeps(Run(st, front), last);
    }
  }

  /** Removing a repository cuts its receivers off for good, except from publishes under way:
      whatever is published or subscribed later, nothing more comes. */
  lemma RemovalCutsOff(st: State, r: nat, key: Key, actions: seq<Action>)
    requires Inv(st) && Connected(st, r, key) && key != All && Drop(r) !in actions
    requires forall c | c in st.cloned :: c.channel != st.receivers[r].channel
    ensures var end := Run(Removed(st, key), actions);
            CutOff(end, r) && end.receivers[r].stream == st.receivers[r].stream
  {
    StepKeeps(st, RemoveRepo(key));
    CutOffHearsNothing(Removed(st, key), actions, r);
  }

  // ---- What is sent on a channel ----

  function OfRepo(stream: seq<Event>, repo: Key): seq<Event> {
    if stream == [] then []
    else
      var last := stream[|stream| - 1];
      OfRepo(stream[..|stream| - 1], repo) + if last.repo == repo then [last] else []
  }

  lemma OfRepoOne(stream: seq<Event>, e: Event, repo: Key)
    ensures OfRepo(stream + [e], repo) == OfRepo(stream, repo) + if e.repo == repo then [e] else []
  {
    assert (stream + [e])[..|stream|] == stream;
  }

  lemma {:induction false} OfRepoCounts(stream: seq<Event>, repo: Key, e: Event)
    ensures multiset(OfRepo(stream, repo))[e] == if e.repo == repo then multiset(stream)[e] else 0
  {
    if stream != [] {
      var front, last := stream[..|stream| - 1], stream[|stream| - 1];
      OfRepoCounts(front, repo, e);
      assert stream == front + [last];
    }
  }

  lemma {:induction false} OfRepoGrows(stream: seq<Event>, more: seq<Event>, repo: Key)
    ensures OfRepo(stream, repo) <= OfRepo(stream + more, repo)
  {
    if more == [] {
      assert stream + more == stream;
    } else {
      var front, last := more[..|more| - 1], more[|more| - 1];
      OfRepoGrows(stream, front, repo);
      assert stream + more == (stream + front) + [last];
      OfRepoOne(stream + front, last, repo);
    }
  }

  lemma RunOne(st: State, x: Action)
    ensures Run(st, [x]) == Step(st, x)
  {
    assert [x][..0] == [] && Run(st, []) == st;
  }

  /** What a receiver of `key` gets of one publish: an event of the key "__all__" is sent twice
      on the all channel, and nothing is ever sent on the empty key's. */
  function HeardOf(e: Event, key: Key): seq<Event> {
    match key
    case NoRepo => []
    case All => if e.repo == All then [e, e] else [e]
    case Repo(_) => if e.repo == key then [e] else []
  }

  /** What an action sends on the channel that the bus has for `key`. */
  function SentOn(st: State, x: Action, key: Key): seq<Event> {
    match x
    case SendRepo(e, channel) =>
      if Held(e, channel) in st.cloned && key in st.channels && st.channels[key] == channel then [e] else []
    case SendAll(e) => if key == All && e in st.sent then [e] else []
    case Publish(e) => HeardOf(e, key)
    case _ => []
  }

  /** What a run sends on it, in order. */
  function Sends(st: State, actions: seq<Action>, key: Key): seq<Event> {
    if actions == [] then []
    else
      var front := actions[..|actions| - 1];
      Sends(st, front, key) + SentOn(Run(st, front), actions[|actions| - 1], key)
  }

  lemma ToAllIsHeard(st: State, e: Event, r: nat, key: Key)
    requires Inv(st) && Connected(st, r, key)
    ensures r in ToAll(st, e).receivers && Connected(ToAll(st, e), r, key)
    ensures ToAll(st, e).receivers[r].stream == st.receivers[r].stream + if key == All then [e] else []
  {
  }

  lemma DeliverIsHeard(st: State, e: Event, r: nat, key: Key)
    requires Inv(st) && Connected(st, r, key) && e.repo in st.channels
    ensures var after := st.(receivers := Deliver(st.receivers, st.channels[e.repo], e));
            && Connected(after, r, key)
            && after.receivers[r].stream == st.receivers[r].stream + if e.repo == key then [e] else []
  {
  }

  /** The two sends of a publish with a set repository. */
  lemma HeardInTwoSends(stream: seq<Event>, e: Event, key: Key)
    requires e.repo != NoRepo
    ensures stream + HeardOf(e, key) == (stream + if e.repo == key then [e] else []) + if key == All then [e] else []
  {
  }

  lemma RepoPublishIsHeard(st: State, e: Event, r: nat, key: Key)
    requires Inv(st) && Connected(st, r, key) && e.repo != NoRepo && e.repo in st.channels
    ensures var half := st.(receivers := Deliver(st.receivers, st.channels[e.repo], e));
            r in ToAll(half, e).receivers && ToAll(half, e).receivers[r].stream == st.receivers[r].stream + HeardOf(e, key)
  {
    var half := st.(receivers := Deliver(st.receivers, st.channels[e.repo], e));
    DeliverIsHeard(st, e, r, key);
    DeliverKeeps(st, st.channels[e.repo], e);
    ToAllIsHeard(half, e, r, key);
    HeardInTwoSends(st.receivers[r].stream, e, key);
  }

  lemma PublishIsHeard(st: State, e: Event, r: nat, key: Key)
    requires Inv(st) && Connected(st, r, key)
    ensures r in Published(st, e).receivers
    ensures Published(st, e).receivers[r].stream == st.receivers[r].stream + HeardOf(e, key)
  {
    if e.repo == NoRepo {
      ToAllIsHeard(st, e, r, key);
    } else {
      EnsureConnects(st, e.repo, r, key);
      EnsureKeeps(st, e.repo);
      RepoPublishIsHeard(Ensure(st, e.repo), e, r, key);
    }
  }

  predicate IsSend(x: Action) { x.SendRepo? || x.SendAll? || x.Publish? }

  lemma QuietStep(st: State, x: Action, r: nat)
    requires r in st.receivers && x != Drop(r) && !IsSend(x)
    ensures r in Step(st, x).receivers && Step(st, x).receivers[r].stream == st.receivers[r].stream
  {
    match x
    case Clone(_) =>
    case Subscribe(_, _) =>
    case Drop(_) =>
    case Retain(_) =>
    case RemoveRepo(_) =>
  }

  lemma SendRepoIsHeard(st: State, e: Event, channel: nat, r: nat, key: Key)
    requires Connected(st, r, key)
    ensures r in Step(st, SendRepo(e, channel)).receivers
    ensures Step(st, SendRepo(e, channel)).receivers[r].stream == st.receivers[r].stream + SentOn(st, SendRepo(e, channel), key)
  {
  }

  lemma SendAllIsHeard(st: State, e: Event, r: nat, key: Key)
    requires Inv(st) && Connected(st, r, key)
    ensures r in Step(st, SendAll(e)).receivers
    ensures Step(st, SendAll(e)).receivers[r].stream == st.receivers[r].stream + SentOn(st, SendAll(e), key)
  {
    ToAllIsHeard(st, e, r, key);
  }

  /** A connected receiver gets exactly what is sent on its key's channel. */
  lemma HearsStep(st: State, x: Action, r: nat, key: Key)
    requires Inv(st) && Connected(st, r, key) && Spares(x, r, key)
    ensures Connected(Step(st, x), r, key)
    ensures Step(st, x).receivers[r].stream == st.receivers[r].stream + SentOn(st, x, key)
  {
    ConnectedStep(st, x, r, key);
    match x
    case SendRepo(e, channel) => SendRepoIsHeard(st, e, channel, r, key);
    case SendAll(e) => SendAllIsHeard(st, e, r, key);
    case Publish(e) => PublishIsHeard(st, e, r, key);
    case _ => QuietStep(st, x, r);
  }

  lemma Regroup(a: seq<Event>, b: seq<Event>, c: seq<Event>)
    ensures (a + b) + c == a + (b + c)
  {
  }

  /** A receiver of a key gets exactly what is sent on the key's channel from its subscription
      on, in the order of the sends, however publishes overlap and whatever is subscribed,
      dropped, cleaned up or removed besides. */
  lemma {:induction false} ReceiverHearsItsKey(st: State, actions: seq<Action>, r: nat, key: Key)
    requires Inv(st) && Connected(st, r, key)
    requires forall x | x in actions :: Spares(x, r, key)
    ensures Inv(Run(st, actions)) && Connected(Run(st, actions), r, key)
    ensures Run(st, actions).receivers[r].stream == st.receivers[r].stream + Sends(st, actions, key)
  {
    if actions != [] {
      var front, last := actions[..|actions| - 1], actions[|actions| - 1];
      assert last in actions;
      ReceiverHearsItsKey(st, front, r, key);
      HearsStep(Run(st, front), last, r, key);
      StepKeeps(Run(st, front), last);
      Regroup(st.receivers[r].stream, Sends(st, front, key), SentOn(Run(st, front), last, key));
    }
  }

  // ---- What is sent against what is published ----

  function PublishedBy(x: Action): seq<Event> { if x.Publish? || x.Clone? then [x.e] else [] }

  /** The events whose publish begins in the run, in order. */
  function Publications(actions: seq<Action>): seq<Event> {
    if actions == [] then []
    else Publications(actions[..|actions| - 1]) + PublishedBy(actions[|actions| - 1])
  }

  function Count(st: State, r: nat, e: Event): nat
    requires r in st.receivers
  {
    multiset(st.receivers[r].stream)[e]
  }

  lemma CountAppends(s: seq<Event>, t: seq<Event>, f: Event)
    ensures multiset(s + t)[f] == multiset(s)[f] + multiset(t)[f]
  {
  }

  /** The publishes of `e` that hold the sender now in the bus and have not sent. */
  function Unsent(st: State, e: Event): nat {
    if e.repo in st.channels then st.cloned[Held(e, st.channels[e.repo])] else 0
  }

  lemma CloneOnce(st: State, x: Action, e: Event)
    requires x.Clone? && e.repo.Repo? && e.repo in st.channels
    ensures Unsent(Step(st, x), e) == Unsent(st, e) + multiset(PublishedBy(x))[e]
  {
  }

  lemma SendRepoOnce(st: State, x: Action, e: Event)
    requires x.SendRepo? && e.repo in st.channels
    requires Held(x.e, x.channel) in st.cloned && st.channels[e.repo] == x.channel ==> x.e.repo == e.repo
    ensures multiset(SentOn(st, x, e.repo))[e] + Unsent(Step(st, x), e) == Unsent(st, e)
  {
    if Held(x.e, x.channel) in st.cloned {
      assert Step(st, x).cloned == st.cloned - multiset{Held(x.e, x.channel)};
      assert Held(x.e, x.channel) == Held(e, st.channels[e.repo]) <==> x.e == e && x.channel == st.channels[e.repo];
    }
  }

  lemma ClonedStays(st: State, x: Action)
    requires !x.Clone? && !x.SendRepo?
    ensures Step(st, x).cloned == st.cloned
  {
    match x
    case SendAll(_) =>
    case Publish(_) =>
    case Subscribe(_, _) =>
    case Drop(_) =>
    case Retain(_) =>
    case RemoveRepo(_) =>
  }

  lemma OtherOnce(st: State, x: Action, e: Event)
    requires e.repo.Repo? && !x.Clone? && !x.SendRepo?
    ensures multiset(SentOn(st, x, e.repo))[e] == multiset(PublishedBy(x))[e]
  {
  }

  lemma SentOnOnce(st: State, x: Action, e: Event)
    requires Inv(st) && e.repo.Repo? && e.repo in st.channels
    requires e.repo in Step(st, x).channels && Step(st, x).channels[e.repo] == st.channels[e.repo]
    ensures multiset(SentOn(st, x, e.repo))[e] + Unsent(Step(st, x), e) == Unsent(st, e) + multiset(PublishedBy(x))[e]
  {
    if x.Clone? {
      CloneOnce(st, x, e);
    } else if x.SendRepo? {
      SendRepoOnce(st, x, e);
    } else {
      ClonedStays(st, x);
      OtherOnce(st, x, e);
    }
  }

  /** Each publish is heard once: however publishes overlap, a receiver of a repository has
      got every event of it that was held unsent on its channel at the start, and every one
      published since, but for those still held unsent. */
  lemma {:induction false} EachPublishIsHeardOnce(st: State, actions: seq<Action>, r: nat, e: Event)
    requires Inv(st) && e.repo.Repo? && Connected(st, r, e.repo)
    requires forall x | x in actions :: Spares(x, r, e.repo)
    ensures Inv(Run(st, actions)) && Connected(Run(st, actions), r, e.repo)
    ensures Count(Run(st, actions), r, e) + Unsent(Run(st, actions), e) ==
            Count(st, r, e) + Unsent(st, e) + multiset(Publications(actions))[e]
  {
    if actions != [] {
      var front, last := actions[..|actions| - 1], actions[|actions| - 1];
      assert last in actions;
      var mid := Run(st, front);
      EachPublishIsHeardOnce(st, front, r, e);
      StepKeeps(mid, last);
      HearsStep(mid, last, r, e.repo);
      ConnectedStep(mid, last, r, e.repo);
      SentOnOnce(mid, last, e);
      CountAppends(mid.receivers[r].stream, SentOn(mid, last, e.repo), e);
      CountAppends(Publications(front), PublishedBy(last), e);
    }
  }

  /** Nothing but the repository's events is sent on its channel. */
  lemma {:induction false} SendsAreOfTheKey(st: State, actions: seq<Action>, key: Key)
    requires Inv(st) && key.Repo?
    ensures forall e | e in Sends(st, actions, key) :: e.repo == key
  {
    if actions != [] {
      var front := actions[..|actions| - 1];
      SendsAreOfTheKey(st, front, key);
      RunKeeps(st, front);
    }
  }

  predicate InOneGo(x: Action) { !x.Clone? && !x.SendRepo? && !x.SendAll? }

  function Heard(published: seq<Event>, key: Key): seq<Event> {
    if published == [] then []
    else Heard(published[..|published| - 1], key) + HeardOf(published[|published| - 1], key)
  }

  lemma HeardAppends(published: seq<Event>, e: Event, key: Key)
    ensures Heard(published + [e], key) == Heard(published, key) + HeardOf(e, key)
  {
    assert (published + [e])[..|published|] == published;
  }

  /** With publishes in one go the sends are in the order of publication. */
  lemma {:induction false} SendsInOneGo(st: State, actions: seq<Action>, key: Key)
    requires forall x | x in actions :: InOneGo(x)
    ensures Sends(st, actions, key) == Heard(Publications(actions), key)
  {
    if actions != [] {
      var front, last := actions[..|actions| - 1], actions[|actions| - 1];
      assert last in actions;
      SendsInOneGo(st, front, key);
      if last.Publish? {
        HeardAppends(Publications(front), last.e, key);
      } else {
        assert Publications(actions) == Publications(front) + [] == Publications(front);
      }
    }
  }

  lemma {:induction false} HeardIsOfRepo(published: seq<Event>, key: Key)
    requires key.Repo?
    ensures Heard(published, key) == OfRepo(published, key)
  {
    if published != [] { HeardIsOfRepo(published[..|published| - 1], key); }
  }

  // ---- A repository's receiver against an all receiver ----

  /** `a` listens to everything and `b` to `repo`, both on the channels now in the bus. */
  ghost predicate Listening(st: State, a: nat, b: nat, repo: Key) {
    Connected(st, a, All) && Connected(st, b, repo)
  }

  /** Neither of the two is dropped and the repository is not removed. */
  predicate Keeps(x: Action, a: nat, b: nat, repo: Key) {
    x != Drop(a) && x != Drop(b) && x != RemoveRepo(repo)
  }

  predicate LeavesBoth(actions: seq<Action>, a: nat, b: nat, repo: Key) {
    forall x | x in actions :: Keeps(x, a, b, repo)
  }

  lemma BothHear(st: State, x: Action, a: nat, b: nat, repo: Key)
    requires Inv(st) && Listening(st, a, b, repo) && Keeps(x, a, b, repo)
    ensures var after := Step(st, x);
            && Inv(after) && Listening(after, a, b, repo) && after.channels[repo] == st.channels[repo]
            && after.receivers[a].stream == st.receivers[a].stream + SentOn(st, x, All)
            && after.receivers[b].stream == st.receivers[b].stream + SentOn(st, x, repo)
  {
    StepKeeps(st, x);
    HearsStep(st, x, a, All);
    HearsStep(st, x, b, repo);
    ConnectedStep(st, x, b, repo);
  }

  /** The two receivers just subscribed, in the same moment. */
  function BothSubscribed(st: State, a: nat, b: nat, repo: Key): State {
    Subscribed(Subscribed(st, All, a), repo, b)
  }

  lemma BothListen(st: State, a: nat, b: nat, repo: Key)
    requires Inv(st) && a != b
    ensures var ready := BothSubscribed(st, a, b, repo);
            && Inv(ready) && Listening(ready, a, b, repo) && ready.cloned == st.cloned && ready.sent == st.sent
            && ready.receivers[a].stream == [] && ready.receivers[b].stream == []
            && ready.channels[repo] == if repo in st.channels then st.channels[repo] else st.next
  {
    SubscribedKeeps(st, All, a);
    SubscribedKeeps(Subscribed(st, All, a), repo, b);
  }

  // ---- Publishes in one go ----

  lemma OfRepoUnmoved(stream: seq<Event>, more: seq<Event>, repo: Key, e: Event)
    requires more in {[], [e], [e, e]} && (more != [] ==> e.repo != repo)
    ensures OfRepo(stream + more, repo) == OfRepo(stream, repo)
  {
    assert stream + [] == stream;
    OfRepoOne(stream, e, repo);
    OfRepoOne(stream + [e], e, repo);
    assert stream + [e, e] == (stream + [e]) + [e];
  }

  lemma PartOfPublish(stream: seq<Event>, e: Event, repo: Key)
    requires repo.Repo?
    ensures OfRepo(stream + HeardOf(e, All), repo) == OfRepo(stream, repo) + if e.repo == repo then [e] else []
  {
    if e.repo == All {
      OfRepoUnmoved(stream, [e, e], repo, e);
    } else {
      OfRepoOne(stream, e, repo);
    }
  }

  lemma {:induction false} AllProjects(published: seq<Event>, key: Key)
    requires key.Repo?
    ensures OfRepo(Heard(published, All), key) == Heard(published, key)
  {
    if published != [] {
      var front, last := published[..|published| - 1], published[|published| - 1];
      AllProjects(front, key);
      PartOfPublish(Heard(front, All), last, key);
    }
  }

  ghost predicate Agree(st: State, a: nat, b: nat, repo: Key) {
    a in st.receivers && b in st.receivers && st.receivers[b].stream == OfRepo(st.receivers[a].stream, repo)
  }

  ghost predicate AgreeInOneGo(st: State, a: nat, b: nat, repo: Key) {
    forall actions: seq<Action> | LeavesBoth(actions, a, b, repo) && (forall x | x in actions :: InOneGo(x)) ::
      Agree(Run(BothSubscribed(st, a, b, repo), actions), a, b, repo)
  }

  lemma OneGoAgrees(ready: State, actions: seq<Action>, a: nat, b: nat, repo: Key)
    requires Inv(ready) && Listening(ready, a, b, repo) && ready.receivers[a].stream == [] && ready.receivers[b].stream == []
    requires repo.Repo? && LeavesBoth(actions, a, b, repo) && forall x | x in actions :: InOneGo(x)
    ensures Agree(Run(ready, actions), a, b, repo)
  {
    ReceiverHearsItsKey(ready, actions, a, All);
    ReceiverHearsItsKey(ready, actions, b, repo);
    SendsInOneGo(ready, actions, All);
    SendsInOneGo(ready, actions, repo);
    AllProjects(Publications(actions), repo);
    assert [] + Sends(ready, actions, All) == Sends(ready, actions, All);
    assert [] + Sends(ready, actions, repo) == Sends(ready, actions, repo);
  }

  function Stray(repo: Key): Event { Event(if repo == All then Repo(0) else NoRepo, 0, "", 0) }

  lemma StrayIsNoPart(repo: Key)
    requires !repo.Repo?
    ensures HeardOf(Stray(repo), repo) != OfRepo(HeardOf(Stray(repo), All), repo)
  {
    OfRepoOne([], Stray(repo), repo);
    assert [] + [Stray(repo)] == HeardOf(Stray(repo), All);
  }

  lemma StrayDisagrees(ready: State, a: nat, b: nat, repo: Key)
    requires Inv(ready) && Listening(ready, a, b, repo) && ready.receivers[a].stream == [] && ready.receivers[b].stream == []
    requires !repo.Repo?
    ensures !Agree(Step(ready, Publish(Stray(repo))), a, b, repo)
  {
    var x := Publish(Stray(repo));
    HearsStep(ready, x, a, All);
    HearsStep(ready, x, b, repo);
    assert [] + SentOn(ready, x, All) == HeardOf(Stray(repo), All);
    assert [] + SentOn(ready, x, repo) == HeardOf(Stray(repo), repo);
    StrayIsNoPart(repo);
  }

  lemma StrayBreaks(st: State, a: nat, b: nat, repo: Key)
    requires Inv(st) && a != b && !repo.Repo?
    ensures !AgreeInOneGo(st, a, b, repo)
  {
    var ready, one := BothSubscribed(st, a, b, repo), [Publish(Stray(repo))];
    BothListen(st, a, b, repo);
    StrayDisagrees(ready, a, b, repo);
    RunOne(ready, one[0]);
    assert forall x | x in one :: x == one[0];
    assert LeavesBoth(one, a, b, repo) && !Agree(Run(ready, one), a, b, repo);
  }

  lemma RepositoryAgrees(st: State, a: nat, b: nat, repo: Key)
    requires Inv(st) && a != b && repo.Repo?
    ensures AgreeInOneGo(st, a, b, repo)
  {
    BothListen(st, a, b, repo);
    forall actions: seq<Action> | LeavesBoth(actions, a, b, repo) && (forall x | x in actions :: InOneGo(x))
      ensures Agree(Run(BothSubscribed(st, a, b, repo), actions), a, b, repo)
    {
      OneGoAgrees(BothSubscribed(st, a, b, repo), actions, a, b, repo);
    }
  }

  /** With publishes in one go the two streams always agree exactly when the key is a repository,
      whatever was under way before: the empty key never gets anything, and the all key gets
      the events of every repository. */
  lemma {:induction false} ProjectionIffRepository(start: seq<Action>, a: nat, b: nat, repo: Key)
    requires a != b
    ensures AgreeInOneGo(Run(START, start), a, b, repo) <==> repo != NoRepo && repo != All
  {
    RunKeeps(START, start);
    if repo.Repo? {
      RepositoryAgrees(Run(START, start), a, b, repo);
    } else {
      StrayBreaks(Run(START, start), a, b, repo);
    }
  }

  // ---- How often ----

  /** `b` has an event of the repository as often as `a`, counting with `a` those still to be
      sent on the all channel, and no other event. */
  ghost predicate BalancedFor(st: State, a: nat, b: nat, repo: Key, e: Event) {
    && a in st.receivers && b in st.receivers
    && Count(st, b, e) == if e.repo == repo then Count(st, a, e) + st.sent[e] else 0
  }

  /** Every publish of the repository under way holds the sender now in the bus. */
  ghost predicate NoStrays(st: State, repo: Key) {
    forall c | c in st.cloned && c.e.repo == repo :: repo in st.channels && c.channel == st.channels[repo]
  }

  ghost predicate Balanced(st: State, a: nat, b: nat, repo: Key) {
    && Inv(st) && Listening(st, a, b, repo) && NoStrays(st, repo)
    && (forall e: Event :: BalancedFor(st, a, b, repo, e))
  }

  lemma SendRepoBalances(st: State, x: Action, repo: Key, f: Event)
    requires Inv(st) && repo.Repo? && repo in st.channels && NoStrays(st, repo) && x.SendRepo?
    ensures f.repo == repo ==> multiset(SentOn(st, x, repo))[f] + st.sent[f] == Step(st, x).sent[f]
    ensures f.repo == repo ==> multiset(SentOn(st, x, All))[f] == 0
    ensures f.repo != repo ==> multiset(SentOn(st, x, repo))[f] == 0
  {
    if Held(x.e, x.channel) in st.cloned {
      assert Step(st, x).sent == st.sent + multiset{x.e};
    }
  }

  lemma SendAllBalances(st: State, x: Action, f: Event)
    requires x.SendAll?
    ensures st.sent[f] == multiset(SentOn(st, x, All))[f] + Step(st, x).sent[f]
  {
    if x.e in st.sent {
      assert Step(st, x).sent == st.sent - multiset{x.e};
    }
  }

  lemma SentStays(st: State, x: Action)
    requires !x.Clone? && !x.SendRepo? && !x.SendAll?
    ensures Step(st, x).sent == st.sent
  {
    match x
    case Publish(_) =>
    case Subscribe(_, _) =>
    case Drop(_) =>
    case Retain(_) =>
    case RemoveRepo(_) =>
  }

  lemma CloneSends(st: State, x: Action, f: Event)
    requires x.Clone?
    ensures f.repo != NoRepo ==> Step(st, x).sent[f] == st.sent[f]
  {
  }

  lemma PublishBalances(st: State, x: Action, repo: Key, f: Event)
    requires repo.Repo? && !x.Clone? && !x.SendRepo? && !x.SendAll?
    ensures multiset(SentOn(st, x, repo))[f] == if f.repo == repo then multiset(SentOn(st, x, All))[f] else 0
  {
  }

  lemma SentBalances(st: State, x: Action, repo: Key, f: Event)
    requires Inv(st) && repo.Repo? && repo in st.channels && NoStrays(st, repo)
    ensures f.repo == repo ==>
              multiset(SentOn(st, x, repo))[f] + st.sent[f] == multiset(SentOn(st, x, All))[f] + Step(st, x).sent[f]
    ensures f.repo != repo ==> multiset(SentOn(st, x, repo))[f] == 0
  {
    if x.SendRepo? {
      SendRepoBalances(st, x, repo, f);
    } else if x.SendAll? {
      SendAllBalances(st, x, f);
    } else if x.Clone? {
      CloneSends(st, x, f);
    } else {
      SentStays(st, x);
      PublishBalances(st, x, repo, f);
    }
  }

  lemma NoneStrays(st: State, x: Action, repo: Key)
    requires repo in st.channels && repo in Step(st, x).channels && Step(st, x).channels[repo] == st.channels[repo]
    requires NoStrays(st, repo) && repo.Repo?
    ensures NoStrays(Step(st, x), repo)
  {
    if !x.Clone? && !x.SendRepo? { ClonedStays(st, x); }
  }

  lemma BalanceStep(st: State, x: Action, a: nat, b: nat, repo: Key)
    requires Balanced(st, a, b, repo) && Keeps(x, a, b, repo) && repo.Repo?
    ensures Balanced(Step(st, x), a, b, repo)
  {
    BothHear(st, x, a, b, repo);
    forall f: Event ensures BalancedFor(Step(st, x), a, b, repo, f) {
      assert BalancedFor(st, a, b, repo, f);
      SentBalances(st, x, repo, f);
      CountAppends(st.receivers[a].stream, SentOn(st, x, All), f);
      CountAppends(st.receivers[b].stream, SentOn(st, x, repo), f);
    }
    NoneStrays(st, x, repo);
  }

  lemma {:induction false} BalanceRun(st: State, actions: seq<Action>, a: nat, b: nat, repo: Key)
    requires Balanced(st, a, b, repo) && repo.Repo? && LeavesBoth(actions, a, b, repo)
    ensures Balanced(Run(st, actions), a, b, repo)
  {
    if actions != [] {
      var last := actions[|actions| - 1];
      assert last in actions;
      BalanceRun(st, actions[..|actions| - 1], a, b, repo);
      BalanceStep(Run(st, actions[..|actions| - 1]), last, a, b, repo);
    }
  }

  /** No publish of the repository is between its two sends, and none holds a sender that is
      no longer in the bus. */
  ghost predicate Settled(st: State, repo: Key) {
    (forall f | f in st.sent :: f.repo != repo) && NoStrays(st, repo)
  }

  lemma SettledBalances(st: State, a: nat, b: nat, repo: Key)
    requires Inv(st) && a != b && repo.Repo? && Settled(st, repo)
    ensures Balanced(BothSubscribed(st, a, b, repo), a, b, repo)
  {
    BothListen(st, a, b, repo);
  }

  // ---- In which order ----

  /** `b` has at least its part of what `a` has, in the same order. */
  ghost predicate InOrder(st: State, a: nat, b: nat, repo: Key) {
    a in st.receivers && b in st.receivers && OfRepo(st.receivers[a].stream, repo) <= st.receivers[b].stream
  }

  /** What `b` has got and `a` has yet to get. */
  ghost function Ahead(st: State, a: nat, b: nat, repo: Key): seq<Event>
    requires InOrder(st, a, b, repo)
  {
    st.receivers[b].stream[|OfRepo(st.receivers[a].stream, repo)|..]
  }

  ghost predicate AheadBySent(st: State, a: nat, b: nat, repo: Key, e: Event)
    requires InOrder(st, a, b, repo)
  {
    multiset(Ahead(st, a, b, repo))[e] == if e.repo == repo then st.sent[e] else 0
  }

  /** `b` has its part of what `a` has, in the same order, and then exactly the events of the
      repository that are between their two sends. */
  ghost predicate Projected(st: State, a: nat, b: nat, repo: Key) {
    InOrder(st, a, b, repo) && forall e: Event :: AheadBySent(st, a, b, repo, e)
  }

  lemma SplitCounts(all: seq<Event>, n: nat, e: Event)
    requires n <= |all|
    ensures multiset(all)[e] == multiset(all[..n])[e] + multiset(all[n..])[e]
  {
    assert all == all[..n] + all[n..];
  }

  lemma AheadCounts(st: State, a: nat, b: nat, repo: Key, e: Event)
    requires InOrder(st, a, b, repo)
    ensures AheadBySent(st, a, b, repo, e) <==> BalancedFor(st, a, b, repo, e)
  {
    var part, all := OfRepo(st.receivers[a].stream, repo), st.receivers[b].stream;
    assert all[..|part|] == part;
    SplitCounts(all, |part|, e);
    OfRepoCounts(st.receivers[a].stream, repo, e);
  }

  lemma ProjectedIsBalanced(st: State, a: nat, b: nat, repo: Key)
    requires InOrder(st, a, b, repo)
    ensures Projected(st, a, b, repo) <==> forall e: Event :: BalancedFor(st, a, b, repo, e)
  {
    forall e: Event ensures AheadBySent(st, a, b, repo, e) <==> BalancedFor(st, a, b, repo, e) {
      AheadCounts(st, a, b, repo, e);
    }
  }

  /** With none of the repository's publishes between its sends, the streams agree. */
  lemma ProjectedAgrees(st: State, a: nat, b: nat, repo: Key)
    requires Projected(st, a, b, repo)
    ensures st.receivers[b].stream == OfRepo(st.receivers[a].stream, repo) <==> forall f | f in st.sent :: f.repo != repo
  {
    var ahead := Ahead(st, a, b, repo);
    assert st.receivers[b].stream == OfRepo(st.receivers[a].stream, repo) + ahead;
    if ahead != [] {
      assert AheadBySent(st, a, b, repo, ahead[0]);
      assert ahead[0] in multiset(ahead);
    }
    forall f | f in st.sent && f.repo == repo ensures f in ahead {
      assert AheadBySent(st, a, b, repo, f);
    }
  }

  /** At most one event of the repository is between its two sends. */
  ghost predicate OneBetween(st: State, repo: Key) {
    forall e, f | e in st.sent && f in st.sent && e.repo == repo && f.repo == repo :: e == f
  }

  /** The action sends no event of the repository on its channel while another one is between
      its two sends. */
  ghost predicate Apart(st: State, x: Action, repo: Key) {
    (x.Publish? || (x.SendRepo? && Held(x.e, x.channel) in st.cloned)) && x.e.repo == repo ==>
      forall f | f in st.sent && f.repo == repo :: f == x.e
  }

  ghost predicate ApartThroughout(st: State, actions: seq<Action>, repo: Key) {
    actions == [] ||
    (var front := actions[..|actions| - 1];
     ApartThroughout(st, front, repo) && Apart(Run(st, front), actions[|actions| - 1], repo))
  }

  /** The two receivers' state while the repository's publishes keep apart. */
  ghost predicate Tracked(st: State, a: nat, b: nat, repo: Key) {
    Balanced(st, a, b, repo) && InOrder(st, a, b, repo) && OneBetween(st, repo)
  }

  lemma AheadIsSent(st: State, a: nat, b: nat, repo: Key, e: Event)
    requires Balanced(st, a, b, repo) && InOrder(st, a, b, repo)
    ensures e in Ahead(st, a, b, repo) <==> e in st.sent && e.repo == repo
  {
    AheadCounts(st, a, b, repo, e);
    assert BalancedFor(st, a, b, repo, e);
    assert e in Ahead(st, a, b, repo) <==> multiset(Ahead(st, a, b, repo))[e] > 0;
  }

  /** The next event that `a` is to get is the one between its sends. */
  lemma AheadIsBetween(st: State, a: nat, b: nat, repo: Key, e: Event)
    requires Tracked(st, a, b, repo) && e in st.sent && e.repo == repo
    ensures Ahead(st, a, b, repo) != [] && Ahead(st, a, b, repo)[0] == e
  {
    AheadIsSent(st, a, b, repo, e);
    AheadIsSent(st, a, b, repo, Ahead(st, a, b, repo)[0]);
  }

  lemma NothingAhead(st: State, a: nat, b: nat, repo: Key)
    requires Tracked(st, a, b, repo) && forall f | f in st.sent :: f.repo != repo
    ensures Ahead(st, a, b, repo) == []
  {
    var ahead := Ahead(st, a, b, repo);
    if ahead != [] { AheadIsSent(st, a, b, repo, ahead[0]); }
  }

  lemma NowSent(st: State, x: Action, f: Event)
    requires f in Step(st, x).sent && f.repo.Repo?
    ensures f in st.sent || (x.SendRepo? && Held(x.e, x.channel) in st.cloned && f == x.e)
  {
    if x.Clone? {
      CloneSends(st, x, f);
    } else if !x.SendRepo? && !x.SendAll? {
      SentStays(st, x);
    }
  }

  lemma OneBetweenStep(st: State, x: Action, repo: Key)
    requires OneBetween(st, repo) && Apart(st, x, repo) && repo.Repo?
    ensures OneBetween(Step(st, x), repo)
  {
    var sent := Step(st, x).sent;
    forall e, f | e in sent && f in sent && e.repo == repo && f.repo == repo ensures e == f {
      NowSent(st, x, e);
      NowSent(st, x, f);
    }
  }

  /** The part of the all channel's sends that is the repository's. */
  function PartSent(st: State, x: Action, repo: Key): seq<Event> {
    if ((x.SendAll? && x.e in st.sent) || x.Publish?) && x.e.repo == repo then [x.e] else []
  }

  lemma PartOfSendAll(st: State, x: Action, stream: seq<Event>, repo: Key)
    requires x.SendAll?
    ensures OfRepo(stream + SentOn(st, x, All), repo) == OfRepo(stream, repo) + PartSent(st, x, repo)
  {
    if x.e in st.sent {
      OfRepoOne(stream, x.e, repo);
    } else {
      assert stream + [] == stream;
    }
  }

  lemma PartIsSent(st: State, x: Action, stream: seq<Event>, repo: Key)
    requires Inv(st) && repo.Repo?
    ensures OfRepo(stream + SentOn(st, x, All), repo) == OfRepo(stream, repo) + PartSent(st, x, repo)
  {
    if x.SendRepo? {
      OfRepoUnmoved(stream, SentOn(st, x, All), repo, x.e);
    } else if x.SendAll? {
      PartOfSendAll(st, x, stream, repo);
    } else if x.Publish? {
      PartOfPublish(stream, x.e, repo);
    } else {
      assert stream + [] == stream;
    }
  }

  lemma PrefixGrows(part: seq<Event>, all: seq<Event>, sent: seq<Event>, more: seq<Event>)
    requires part <= all && (sent == [] || (|all + more| > |part| && sent == [(all + more)[|part|]]))
    ensures part + sent <= all + more
  {
  }

  lemma NextToGet(st: State, x: Action, a: nat, b: nat, repo: Key)
    requires Tracked(st, a, b, repo) && Apart(st, x, repo) && repo.Repo? && PartSent(st, x, repo) != []
    ensures var part, after := OfRepo(st.receivers[a].stream, repo), st.receivers[b].stream + SentOn(st, x, repo);
            |after| > |part| && PartSent(st, x, repo) == [after[|part|]]
  {
    if f :| f in st.sent && f.repo == repo {
      AheadIsBetween(st, a, b, repo, f);
    } else {
      NothingAhead(st, a, b, repo);
    }
  }

  lemma OrderStep(st: State, x: Action, a: nat, b: nat, repo: Key)
    requires Tracked(st, a, b, repo) && Keeps(x, a, b, repo) && Apart(st, x, repo) && repo.Repo?
    ensures InOrder(Step(st, x), a, b, repo)
  {
    BothHear(st, x, a, b, repo);
    PartIsSent(st, x, st.receivers[a].stream, repo);
    if PartSent(st, x, repo) != [] { NextToGet(st, x, a, b, repo); }
    PrefixGrows(OfRepo(st.receivers[a].stream, repo), st.receivers[b].stream, PartSent(st, x, repo), SentOn(st, x, repo));
  }

  lemma TrackStep(st: State, x: Action, a: nat, b: nat, repo: Key)
    requires Tracked(st, a, b, repo) && Keeps(x, a, b, repo) && Apart(st, x, repo) && repo.Repo?
    ensures Tracked(Step(st, x), a, b, repo)
  {
    BalanceStep(st, x, a, b, repo);
    OrderStep(st, x, a, b, repo);
    OneBetweenStep(st, x, repo);
  }

  lemma {:induction false} TrackRun(st: State, actions: seq<Action>, a: nat, b: nat, repo: Key)
    requires Tracked(st, a, b, repo) && LeavesBoth(actions, a, b, repo) && ApartThroughout(st, actions, repo) && repo.Repo?
    ensures Tracked(Run(st, actions), a, b, repo)
  {
    if actions != [] {
      var front, last := actions[..|actions| - 1], actions[|actions| - 1];
      assert last in actions;
      TrackRun(st, front, a, b, repo);
      TrackStep(Run(st, front), last, a, b, repo);
    }
  }

  // ---- When the order is lost ----

  predicate Differ(s: seq<Event>, t: seq<Event>) {
    exists i :: 0 <= i < |s| && i < |t| && s[i] != t[i]
  }

  /** The two have got events of the repository in different orders. */
  ghost predicate Crossed(st: State, a: nat, b: nat, repo: Key) {
    a in st.receivers && b in st.receivers && Differ(OfRepo(st.receivers[a].stream, repo), st.receivers[b].stream)
  }

  lemma DifferStays(s: seq<Event>, t: seq<Event>, s': seq<Event>, t': seq<Event>)
    requires Differ(s, t) && s <= s' && t <= t'
    ensures Differ(s', t')
  {
    var i :| 0 <= i < |s| && i < |t| && s[i] != t[i];
    assert s'[i] == s[i] && t'[i] == t[i];
  }

  lemma DeliverGrows(receivers: map<nat, Receiver>, channel: nat, e: Event, r: nat)
    requires r in receivers
    ensures var after := Deliver(receivers, channel, e); r in after && receivers[r].stream <= after[r].stream
  {
  }

  lemma PublishGrows(st: State, e: Event, r: nat)
    requires r in st.receivers
    ensures r in Published(st, e).receivers && st.receivers[r].stream <= Published(st, e).receivers[r].stream
  {
    if All in st.channels { DeliverGrows(st.receivers, st.channels[All], e, r); }
    if e.repo != NoRepo {
      var ready := Ensure(st, e.repo);
      var half := Deliver(ready.receivers, ready.channels[e.repo], e);
      DeliverGrows(ready.receivers, ready.channels[e.repo], e, r);
      if All in ready.channels { DeliverGrows(half, ready.channels[All], e, r); }
    }
  }

  lemma StreamGrows(st: State, x: Action, r: nat)
    requires r in st.receivers && x != Drop(r)
    ensures r in Step(st, x).receivers && st.receivers[r].stream <= Step(st, x).receivers[r].stream
  {
    match x
    case SendRepo(e, channel) => DeliverGrows(st.receivers, channel, e, r);
    case SendAll(e) => if All in st.channels { DeliverGrows(st.receivers, st.channels[All], e, r); }
    case Publish(e) => PublishGrows(st, e, r);
    case _ => QuietStep(st, x, r);
  }

  lemma CrossedStep(st: State, x: Action, a: nat, b: nat, repo: Key)
    requires Crossed(st, a, b, repo) && x != Drop(a) && x != Drop(b)
    ensures Crossed(Step(st, x), a, b, repo)
  {
    StreamGrows(st, x, a);
    StreamGrows(st, x, b);
    var before, after := st.receivers[a].stream, Step(st, x).receivers[a].stream;
    assert after == before + after[|before|..];
    OfRepoGrows(before, after[|before|..], repo);
    DifferStays(OfRepo(before, repo), st.receivers[b].stream, OfRepo(after, repo), Step(st, x).receivers[b].stream);
  }

  /** An order once lost is never found again: the streams do not agree in any later state. */
  lemma {:induction false} CrossedForEver(st: State, actions: seq<Action>, a: nat, b: nat, repo: Key)
    requires Crossed(st, a, b, repo) && Drop(a) !in actions && Drop(b) !in actions
    ensures Crossed(Run(st, actions), a, b, repo) && !InOrder(Run(st, actions), a, b, repo)
  {
    if actions != [] {
      var last := actions[|actions| - 1];
      assert last in actions;
      CrossedForEver(st, actions[..|actions| - 1], a, b, repo);
      CrossedStep(Run(st, actions[..|actions| - 1]), last, a, b, repo);
    }
  }

  /** No send on the all channel, made now, puts the two streams in different orders. */
  ghost predicate NoSendCrosses(st: State, a: nat, b: nat, repo: Key) {
    forall e: Event :: !Crossed(Step(st, SendAll(e)), a, b, repo)
  }

  lemma TrackedIsSafe(st: State, a: nat, b: nat, repo: Key)
    requires Tracked(st, a, b, repo) && repo.Repo?
    ensures NoSendCrosses(st, a, b, repo)
  {
    forall e: Event ensures !Crossed(Step(st, SendAll(e)), a, b, repo) {
      OrderStep(st, SendAll(e), a, b, repo);
    }
  }

  lemma DifferAt(part: seq<Event>, ahead: seq<Event>, f: Event, more: seq<Event>)
    requires ahead != [] && ahead[0] != f
    ensures Differ(part + [f], (part + ahead) + more)
  {
    assert (part + [f])[|part|] == f && ((part + ahead) + more)[|part|] == ahead[0];
  }

  lemma NotApartPublish(st: State, f: Event, a: nat, b: nat, repo: Key)
    requires Tracked(st, a, b, repo) && repo.Repo? && !Apart(st, Publish(f), repo)
    ensures Crossed(Step(st, Publish(f)), a, b, repo)
  {
    var e :| e in st.sent && e.repo == repo && e != f;
    AheadIsBetween(st, a, b, repo, e);
    var part, ahead := OfRepo(st.receivers[a].stream, repo), Ahead(st, a, b, repo);
    assert st.receivers[b].stream == part + ahead;
    BothHear(st, Publish(f), a, b, repo);
    PartOfPublish(st.receivers[a].stream, f, repo);
    DifferAt(part, ahead, f, [f]);
  }

  lemma SentThenAll(st: State, f: Event, a: nat, b: nat, repo: Key)
    requires Inv(st) && Listening(st, a, b, repo) && repo.Repo? && f in st.sent && f.repo == repo
    ensures var after := Step(st, SendAll(f));
            && a in after.receivers && b in after.receivers && after.receivers[b].stream == st.receivers[b].stream
            && OfRepo(after.receivers[a].stream, repo) == OfRepo(st.receivers[a].stream, repo) + [f]
  {
    BothHear(st, SendAll(f), a, b, repo);
    OfRepoOne(st.receivers[a].stream, f, repo);
    assert st.receivers[b].stream + [] == st.receivers[b].stream;
  }

  lemma NotApartSend(st: State, f: Event, c: nat, a: nat, b: nat, repo: Key)
    requires Tracked(st, a, b, repo) && repo.Repo? && !Apart(st, SendRepo(f, c), repo)
    ensures Crossed(Step(Step(st, SendRepo(f, c)), SendAll(f)), a, b, repo)
  {
    var e :| e in st.sent && e.repo == repo && e != f;
    AheadIsBetween(st, a, b, repo, e);
    var part, ahead := OfRepo(st.receivers[a].stream, repo), Ahead(st, a, b, repo);
    var mid := Step(st, SendRepo(f, c));
    assert st.receivers[b].stream == part + ahead;
    BothHear(st, SendRepo(f, c), a, b, repo);
    assert mid.receivers[a].stream == st.receivers[a].stream + [] == st.receivers[a].stream;
    SentThenAll(mid, f, a, b, repo);
    DifferAt(part, ahead, f, [f]);
  }

  /** An event sent on the repository's channel behind another one that is still between its
      sends can get to `a` before it. */
  lemma NotApartCrosses(st: State, x: Action, a: nat, b: nat, repo: Key)
    requires Tracked(st, a, b, repo) && repo.Repo? && !Apart(st, x, repo)
    ensures Crossed(Step(Step(st, x), SendAll(x.e)), a, b, repo)
  {
    if x.Publish? {
      NotApartPublish(st, x.e, a, b, repo);
      CrossedStep(Step(st, x), SendAll(x.e), a, b, repo);
    } else {
      NotApartSend(st, x.e, x.channel, a, b, repo);
    }
  }

  /** In no state of the run can a send on the all channel put the streams in different orders. */
  ghost predicate OrderIsSafe(st: State, actions: seq<Action>, a: nat, b: nat, repo: Key) {
    && (actions == [] || OrderIsSafe(st, actions[..|actions| - 1], a, b, repo))
    && NoSendCrosses(Run(st, actions), a, b, repo)
  }

  /** The order is safe throughout a run exactly when no event of the repository is sent on its
      channel while another one is between its two sends. What is only being prepared,
      and publishes of other repositories, may overlap in any way. */
  lemma {:induction false} OrderIsSafeIffApart(st: State, actions: seq<Action>, a: nat, b: nat, repo: Key)
    requires Tracked(st, a, b, repo) && LeavesBoth(actions, a, b, repo) && repo.Repo?
    ensures OrderIsSafe(st, actions, a, b, repo) <==> ApartThroughout(st, actions, repo)
  {
    if actions == [] {
      TrackedIsSafe(st, a, b, repo);
    } else {
      var front, last := actions[..|actions| - 1], actions[|actions| - 1];
      assert last in actions;
      OrderIsSafeIffApart(st, front, a, b, repo);
      if ApartThroughout(st, front, repo) {
        TrackRun(st, front, a, b, repo);
        if Apart(Run(st, front), last, repo) {
          TrackStep(Run(st, front), last, a, b, repo);
          TrackedIsSafe(Run(st, actions), a, b, repo);
        } else {
          NotApartCrosses(Run(st, front), last, a, b, repo);
        }
      }
    }
  }

  /** From every state in which the streams agree and two different events of the repository
      are under way on its channel, four sends lose the order for good. */
  lemma OverlapLosesTheOrder(st: State, e: Event, f: Event, a: nat, b: nat, repo: Key, more: seq<Action>)
    requires Inv(st) && Listening(st, a, b, repo) && repo.Repo? && st.receivers[b].stream == OfRepo(st.receivers[a].stream, repo)
    requires e != f && Held(e, st.channels[repo]) in st.cloned && Held(f, st.channels[repo]) in st.cloned
    requires Drop(a) !in more && Drop(b) !in more
    ensures var c := st.channels[repo];
            var crossed := Step(Step(Step(Step(st, SendRepo(e, c)), SendRepo(f, c)), SendAll(f)), SendAll(e));
            !InOrder(Run(crossed, more), a, b, repo)
  {
    var c := st.channels[repo];
    var one := Step(st, SendRepo(e, c));
    var two := Step(one, SendRepo(f, c));
    var three := Step(two, SendAll(f));
    var part := OfRepo(st.receivers[a].stream, repo);
    BothHear(st, SendRepo(e, c), a, b, repo);
    BothHear(one, SendRepo(f, c), a, b, repo);
    assert st.receivers[a].stream + [] == st.receivers[a].stream;
    SentThenAll(two, f, a, b, repo);
    DifferAt(part, [e], f, [f]);
    CrossedStep(three, SendAll(e), a, b, repo);
    CrossedForEver(Step(three, SendAll(e)), more, a, b, repo);
  }

  // ---- Exactly when the projection holds ----

  /** However publishes of other repositories, subscriptions, drops, cleanups and removals
      go, as long as those of this repository keep apart, the repository's receiver has
      its part of what the other one has, then what is between its sends. */
  ghost predicate AlwaysProjected(st: State, a: nat, b: nat, repo: Key) {
    var ready := BothSubscribed(st, a, b, repo);
    forall actions: seq<Action> | LeavesBoth(actions, a, b, repo) && ApartThroughout(ready, actions, repo) ::
      Projected(Run(ready, actions), a, b, repo)
  }

  /** However all publishes overlap, the repository's receiver has the events of the repository
      as often as the other one. */
  ghost predicate AlwaysBalanced(st: State, a: nat, b: nat, repo: Key) {
    forall actions: seq<Action>, e: Event | LeavesBoth(actions, a, b, repo) ::
      BalancedFor(Run(BothSubscribed(st, a, b, repo), actions), a, b, repo, e)
  }

  /** The action and the event that show that something is missed or too much is got. */
  ghost predicate Unbalances(st: State, actions: seq<Action>, e: Event, a: nat, b: nat, repo: Key) {
    var ready := BothSubscribed(st, a, b, repo);
    && LeavesBoth(actions, a, b, repo) && ApartThroughout(ready, actions, repo)
    && !BalancedFor(Run(ready, actions), a, b, repo, e)
  }

  lemma OneStepUnbalances(st: State, x: Action, e: Event, a: nat, b: nat, repo: Key)
    requires var ready := BothSubscribed(st, a, b, repo);
             Keeps(x, a, b, repo) && Apart(ready, x, repo) && !BalancedFor(Step(ready, x), a, b, repo, e)
    ensures Unbalances(st, [x], e, a, b, repo)
  {
    var ready := BothSubscribed(st, a, b, repo);
    RunOne(ready, x);
    assert [x][..0] == [] && Run(ready, []) == ready;
    assert ApartThroughout(ready, [x][..0], repo);
  }

  lemma StrayUnbalances(st: State, a: nat, b: nat, repo: Key)
    requires Inv(st) && a != b && !repo.Repo? && forall f | f in st.sent :: f.repo != repo
    ensures Unbalances(st, [Publish(Stray(repo))], Stray(repo), a, b, repo)
  {
    var ready := BothSubscribed(st, a, b, repo);
    BothListen(st, a, b, repo);
    HearsStep(ready, Publish(Stray(repo)), a, All);
    HearsStep(ready, Publish(Stray(repo)), b, repo);
    assert [] + HeardOf(Stray(repo), All) == [Stray(repo)];
    assert [] + HeardOf(Stray(repo), repo) == HeardOf(Stray(repo), repo);
    OneStepUnbalances(st, Publish(Stray(repo)), Stray(repo), a, b, repo);
  }

  lemma BetweenUnbalances(st: State, e: Event, a: nat, b: nat, repo: Key)
    requires Inv(st) && a != b && e in st.sent && e.repo == repo
    ensures Unbalances(st, [], e, a, b, repo)
  {
    BothListen(st, a, b, repo);
  }

  /** A publish that holds a sender no longer in the bus. */
  lemma StrayCloneUnbalances(st: State, e: Event, c: nat, a: nat, b: nat, repo: Key)
    requires Inv(st) && a != b && repo.Repo? && (forall f | f in st.sent :: f.repo != repo)
    requires Held(e, c) in st.cloned && e.repo == repo && (repo in st.channels ==> c != st.channels[repo])
    ensures Unbalances(st, [SendRepo(e, c)], e, a, b, repo)
  {
    var ready := BothSubscribed(st, a, b, repo);
    BothListen(st, a, b, repo);
    BothHear(ready, SendRepo(e, c), a, b, repo);
    OneStepUnbalances(st, SendRepo(e, c), e, a, b, repo);
  }

  lemma UnsettledUnbalances(st: State, a: nat, b: nat, repo: Key) returns (actions: seq<Action>, e: Event)
    requires Inv(st) && a != b && !(repo.Repo? && Settled(st, repo))
    ensures Unbalances(st, actions, e, a, b, repo)
  {
    if f :| f in st.sent && f.repo == repo {
      actions, e := [], f;
      BetweenUnbalances(st, e, a, b, repo);
    } else if !repo.Repo? {
      actions, e := [Publish(Stray(repo))], Stray(repo);
      StrayUnbalances(st, a, b, repo);
    } else {
      var c :| c in st.cloned && c.e.repo == repo && !(repo in st.channels && c.channel == st.channels[repo]);
      assert c == Held(c.e, c.channel);
      actions, e := [SendRepo(c.e, c.channel)], c.e;
      StrayCloneUnbalances(st, c.e, c.channel, a, b, repo);
    }
  }

  lemma SettledTracks(st: State, a: nat, b: nat, repo: Key)
    requires Inv(st) && a != b && repo.Repo? && Settled(st, repo)
    ensures Tracked(BothSubscribed(st, a, b, repo), a, b, repo)
  {
    BothListen(st, a, b, repo);
    SettledBalances(st, a, b, repo);
  }

  /** The projection holds for ever exactly when the key is a repository of which, at the
      subscription, no publish was between its sends or held a sender no longer in the bus:
      those are the ones that are missed. */
  lemma {:induction false} ProjectionIffSettled(start: seq<Action>, a: nat, b: nat, repo: Key)
    requires a != b
    ensures AlwaysProjected(Run(START, start), a, b, repo) <==> repo.Repo? && Settled(Run(START, start), repo)
  {
    var st := Run(START, start);
    RunKeeps(START, start);
    if repo.Repo? && Settled(st, repo) {
      var ready := BothSubscribed(st, a, b, repo);
      SettledTracks(st, a, b, repo);
      forall actions: seq<Action> | LeavesBoth(actions, a, b, repo) && ApartThroughout(ready, actions, repo)
        ensures Projected(Run(ready, actions), a, b, repo)
      {
        TrackRun(ready, actions, a, b, repo);
        ProjectedIsBalanced(Run(ready, actions), a, b, repo);
      }
    } else {
      var actions, e := UnsettledUnbalances(st, a, b, repo);
      var end := Run(BothSubscribed(st, a, b, repo), actions);
      if InOrder(end, a, b, repo) { ProjectedIsBalanced(end, a, b, repo); }
      assert !Projected(end, a, b, repo);
    }
  }

  // ---- Publishes in turn ----

  /** No publish of the repository is under way. */
  ghost predicate Quiet(st: State, repo: Key) {
    (forall c | c in st.cloned :: c.e.repo != repo) && (forall f | f in st.sent :: f.repo != repo)
  }

  /** A publish of the repository begins only when no other one is under way. */
  ghost predicate InTurnThroughout(st: State, actions: seq<Action>, repo: Key) {
    actions == [] ||
    (var front, last := actions[..|actions| - 1], actions[|actions| - 1];
     && InTurnThroughout(st, front, repo)
     && ((last.Clone? || last.Publish?) && last.e.repo == repo ==> Quiet(Run(st, front), repo)))
  }

  ghost predicate UnderWay(st: State, e: Event) {
    e in st.sent || exists channel :: Held(e, channel) in st.cloned
  }

  /** At most one event of the repository is under way. */
  ghost predicate OneUnderWay(st: State, repo: Key) {
    forall e, f | UnderWay(st, e) && UnderWay(st, f) && e.repo == repo && f.repo == repo :: e == f
  }

  lemma QuietMeansNone(st: State, e: Event)
    requires Quiet(st, e.repo)
    ensures !UnderWay(st, e)
  {
  }

  lemma StillUnderWay(st: State, x: Action, e: Event)
    requires UnderWay(Step(st, x), e) && e.repo.Repo?
    ensures UnderWay(st, e) || (x.Clone? && e == x.e)
  {
    if e in Step(st, x).sent {
      NowSent(st, x, e);
    } else {
      var channel :| Held(e, channel) in Step(st, x).cloned;
      if !x.Clone? && !x.SendRepo? { ClonedStays(st, x); }
      assert Held(e, channel) in st.cloned || (x.Clone? && e == x.e);
    }
  }

  lemma InTurnStep(st: State, x: Action, repo: Key)
    requires OneUnderWay(st, repo) && repo.Repo?
    requires (x.Clone? || x.Publish?) && x.e.repo == repo ==> Quiet(st, repo)
    ensures Apart(st, x, repo) && OneUnderWay(Step(st, x), repo)
  {
    assert Apart(st, x, repo) by {
      if x.SendRepo? && Held(x.e, x.channel) in st.cloned { assert UnderWay(st, x.e); }
      assert forall f | f in st.sent :: UnderWay(st, f);
    }
    forall e, f | UnderWay(Step(st, x), e) && UnderWay(Step(st, x), f) && e.repo == repo && f.repo == repo ensures e == f {
      StillUnderWay(st, x, e);
      StillUnderWay(st, x, f);
      if x.Clone? && x.e.repo == repo {
        QuietMeansNone(st, e);
        QuietMeansNone(st, f);
      }
    }
  }

  lemma {:induction false} InTurnIsApart(st: State, actions: seq<Action>, repo: Key)
    requires OneUnderWay(st, repo) && repo.Repo? && InTurnThroughout(st, actions, repo)
    ensures ApartThroughout(st, actions, repo) && OneUnderWay(Run(st, actions), repo)
  {
    if actions != [] {
      var front := actions[..|actions| - 1];
      InTurnIsApart(st, front, repo);
      InTurnStep(Run(st, front), actions[|actions| - 1], repo);
    }
  }

  /** Whoever sees to it that a publish of a repository begins only when no other one of it is
      under way has the projection, whatever is published of other repositories. */
  lemma PublishesInTurnProject(start: seq<Action>, actions: seq<Action>, a: nat, b: nat, repo: Key)
    requires a != b && repo.Repo? && Quiet(Run(START, start), repo) && LeavesBoth(actions, a, b, repo)
    requires InTurnThroughout(BothSubscribed(Run(START, start), a, b, repo), actions, repo)
    ensures var end := Run(BothSubscribed(Run(START, start), a, b, repo), actions);
            && Projected(end, a, b, repo)
            && (Quiet(end, repo) ==> end.receivers[b].stream == OfRepo(end.receivers[a].stream, repo))
  {
    var st := Run(START, start);
    var ready := BothSubscribed(st, a, b, repo);
    var end := Run(ready, actions);
    RunKeeps(START, start);
    SettledTracks(st, a, b, repo);
    BothListen(st, a, b, repo);
    forall e: Event | e.repo == repo ensures !UnderWay(ready, e) { QuietMeansNone(ready, e); }
    InTurnIsApart(ready, actions, repo);
    TrackRun(ready, actions, a, b, repo);
    ProjectedIsBalanced(end, a, b, repo);
    ProjectedAgrees(end, a, b, repo);
  }

  // ---- What is missed ----

  /** The same condition is exact for how often events come, with publishes of this repository
      overlapping too. */
  lemma {:induction false} AgreementIffSettled(start: seq<Action>, a: nat, b: nat, repo: Key)
    requires a != b
    ensures AlwaysBalanced(Run(START, start), a, b, repo) <==> repo.Repo? && Settled(Run(START, start), repo)
  {
    var st := Run(START, start);
    RunKeeps(START, start);
    if repo.Repo? && Settled(st, repo) {
      SettledBalances(st, a, b, repo);
      forall actions: seq<Action>, e: Event | LeavesBoth(actions, a, b, repo)
        ensures BalancedFor(Run(BothSubscribed(st, a, b, repo), actions), a, b, repo, e)
      {
        BalanceRun(BothSubscribed(st, a, b, repo), actions, a, b, repo);
      }
    } else {
      var actions, e := UnsettledUnbalances(st, a, b, repo);
      assert LeavesBoth(actions, a, b, repo) && !BalancedFor(Run(BothSubscribed(st, a, b, repo), actions), a, b, repo, e);
    }
  }

  /** A publish under way at a subscription and not sent yet reaches the new receiver exactly
      when the sender that it holds is the one in the bus. */
  lemma UnderWayIsHeardIff(st: State, r: nat, actions: seq<Action>, e: Event, c: nat)
    requires Inv(st) && e.repo.Repo? && Held(e, c) in st.cloned && (forall x | x in actions :: Spares(x, r, e.repo))
    requires Held(e, c) in Run(Subscribed(st, e.repo, r), actions).cloned
    ensures var mid := Run(Subscribed(st, e.repo, r), actions);
            var after := Step(mid, SendRepo(e, c));
            && r in mid.receivers && r in after.receivers
            && after.receivers[r].stream ==
               mid.receivers[r].stream + if e.repo in st.channels && st.channels[e.repo] == c then [e] else []
  {
    var ready := Subscribed(st, e.repo, r);
    SubscribedKeeps(st, e.repo, r);
    OnlyRemovalDisconnects(ready, actions, r, e.repo);
    SendRepoIsHeard(Run(ready, actions), e, c, r, e.repo);
  }

  /** The two sends of a publish that holds a sender no longer in the bus. */
  lemma StraySend(st: State, e: Event, c: nat, a: nat, b: nat)
    requires Inv(st) && Listening(st, a, b, e.repo) && e.repo.Repo? && Held(e, c) in st.cloned && c != st.channels[e.repo]
    ensures var after := Step(st, SendRepo(e, c));
            && Inv(after) && Listening(after, a, b, e.repo) && e in after.sent
            && after.receivers[a].stream == st.receivers[a].stream && after.receivers[b].stream == st.receivers[b].stream
  {
    BothHear(st, SendRepo(e, c), a, b, e.repo);
    assert SentOn(st, SendRepo(e, c), All) == [] && SentOn(st, SendRepo(e, c), e.repo) == [];
  }

  lemma StrayIsMissed(st: State, e: Event, c: nat, a: nat, b: nat)
    requires Inv(st) && Listening(st, a, b, e.repo) && e.repo.Repo? && Held(e, c) in st.cloned && c != st.channels[e.repo]
    ensures var end := Step(Step(st, SendRepo(e, c)), SendAll(e));
            && a in end.receivers && b in end.receivers
            && end.receivers[a].stream == st.receivers[a].stream + [e] && end.receivers[b].stream == st.receivers[b].stream
  {
    StraySend(st, e, c, a, b);
    BothHear(Step(st, SendRepo(e, c)), SendAll(e), a, b, e.repo);
  }

  lemma CloneHolds(st: State, e: Event)
    requires Inv(st) && e.repo != NoRepo
    ensures var cloned := Step(st, Clone(e));
            && e.repo in cloned.channels && cloned.receivers == st.receivers
            && Held(e, cloned.channels[e.repo]) in cloned.cloned
            && cloned.channels[e.repo] == if e.repo in st.channels then st.channels[e.repo] else st.next
  {
  }

  lemma NobodyListens(st: State, e: Event)
    requires Inv(st) && e.repo.Repo? && (e.repo in st.channels ==> !HasReceivers(st.receivers, st.channels[e.repo]))
    ensures Idle(Step(st, Clone(e)), e.repo)
  {
    CloneHolds(st, e);
  }

  lemma RetainRemoves(st: State, key: Key)
    requires Inv(st) && Idle(st, key) && key != All
    ensures var cleaned := Step(st, Retain(key));
            Inv(cleaned) && key !in cleaned.channels && cleaned.cloned == st.cloned
  {
    StepKeeps(st, Retain(key));
  }

  lemma CleanupCutsOff(st: State, e: Event)
    requires Inv(st) && e.repo.Repo? && (e.repo in st.channels ==> !HasReceivers(st.receivers, st.channels[e.repo]))
    ensures var cloned := Step(st, Clone(e));
            var cleaned := Step(cloned, Retain(e.repo));
            && e.repo in cloned.channels && Inv(cleaned) && e.repo !in cleaned.channels
            && Held(e, cloned.channels[e.repo]) in cleaned.cloned
  {
    var cloned := Step(st, Clone(e));
    assert Inv(cloned) by { StepKeeps(st, Clone(e)); }
    assert Idle(cloned, e.repo) by { NobodyListens(st, e); }
    assert e.repo in cloned.channels && Held(e, cloned.channels[e.repo]) in cloned.cloned by { CloneHolds(st, e); }
    RetainRemoves(cloned, e.repo);
  }

  /** So a cleanup loses events: from every state in which a repository has no receiver, a
      publish that holds the sender when the cleanup removes it sends to nobody, and a
      receiver that subscribed before the send misses the event for good, while the all
      receiver of the same moment gets it. */
  lemma CleanupLosesAnUnsentEvent(st: State, e: Event, a: nat, b: nat)
    requires Inv(st) && a != b && e.repo.Repo?
    requires e.repo in st.channels ==> !HasReceivers(st.receivers, st.channels[e.repo])
    ensures var cloned := Step(st, Clone(e));
            var ready := BothSubscribed(Step(cloned, Retain(e.repo)), a, b, e.repo);
            var end := Step(Step(ready, SendRepo(e, cloned.channels[e.repo])), SendAll(e));
            && a in end.receivers && b in end.receivers
            && end.receivers[a].stream == [e] && end.receivers[b].stream == []
  {
    CleanupCutsOff(st, e);
    var cloned := Step(st, Clone(e));
    var cleaned := Step(cloned, Retain(e.repo));
    BothListen(cleaned, a, b, e.repo);
    StrayIsMissed(BothSubscribed(cleaned, a, b, e.repo), e, cloned.channels[e.repo], a, b);
    assert [] + [e] == [e];
  }

  lemma HeardParts(stream: seq<Event>, e: Event, key: Key)
    ensures stream + HeardOf(e, key) == stream + (if key != NoRepo && key == e.repo then [e] else []) + (if key == All then [e] else [])
  {
  }

  /** A new receiver is on its key's channel with nothing heard yet, and no other one changes. */
  lemma SubscriberStartsEmpty(st: State, key: Key, r: nat)
    requires r !in st.receivers
    ensures var after := Step(st, Subscribe(key, r));
            && Connected(after, r, key) && after.receivers[r].stream == [] && after.receivers - {r} == st.receivers
            && after.cloned == st.cloned && after.sent == st.sent
            && (key in st.channels ==> after.channels == st.channels)
  {
  }

  /** A receiver that is dropped is gone, and no other one changes. */
  lemma DropOnlyDrops(st: State, r: nat)
    ensures Step(st, Drop(r)).receivers == st.receivers - {r}
    ensures Step(st, Drop(r)) == st.(receivers := Step(st, Drop(r)).receivers)
  {
  }

  // ---- The bus object ----

  class Bus {
    var channels: map<Key, nat>
    // The broadcast channels: who listens to which, and what came in.
    var receivers: map<nat, Receiver>
    var next: nat

    ghost function Now(): State
      reads this
    {
      State(channels, receivers, multiset{}, multiset{}, next)
    }

    constructor ()
      ensures Now() == START
    {
      channels, receivers, next := map[All := 0], map[], 1;
    }

    method GetOrCreateSender(key: Key) returns (sender: nat)
      modifies this
      ensures Now() == Ensure(old(Now()), key) && key in channels && sender == channels[key]
    {
      if key !in channels {
        channels, next := channels[key := next], next + 1;
      }
      sender := channels[key];
    }

    method Publish(e: Event)
      modifies this
      ensures Now() == Published(old(Now()), e)
      ensures old(Inv(Now())) ==> forall r, k | old(Connected(Now(), r, k)) ::
                && r in receivers
                && receivers[r].stream == old(receivers)[r].stream
                     + (if k != NoRepo && k == e.repo then [e] else []) + (if k == All then [e] else [])
    {
      ghost var before := Now();
      if Inv(before) {
        forall r, k | Connected(before, r, k)
          ensures r in Published(before, e).receivers
          ensures Published(before, e).receivers[r].stream == before.receivers[r].stream
                    + (if k != NoRepo && k == e.repo then [e] else []) + (if k == All then [e] else [])
        {
          PublishIsHeard(before, e, r, k);
          HeardParts(before.receivers[r].stream, e, k);
        }
      }
      if e.repo != NoRepo {
        var tx := GetOrCreateSender(e.repo);
        receivers := Deliver(receivers, tx, e);
      }
      if All in channels {
        receivers := Deliver(receivers, channels[All], e);
      }
    }

    method Subscribe(key: Key, r: nat)
      requires r !in receivers
      modifies this
      ensures Now() == Subscribed(old(Now()), key, r)
      ensures Connected(Now(), r, key) && receivers[r].stream == [] && receivers - {r} == old(receivers)
      ensures channels.Keys == old(channels).Keys + {key} && forall k | k in old(channels) :: channels[k] == old(channels)[k]
    {
      var tx := GetOrCreateSender(key);
      receivers := receivers[r := Receiver(tx, [])];
    }

    /** Every receiver of the removed repository is cut off, and nobody else is: a receiver of
        another key stays connected, and the all channel is never removed. */
    method RemoveRepo(key: Key)
      modifies this`channels
      ensures forall r, k | k != key || key == All :: Connected(Now(), r, k) <==> old(Connected(Now(), r, k))
      ensures key != All ==> forall r :: !Connected(Now(), r, key)
      ensures channels.Keys == old(channels).Keys - (if key == All then {} else {key})
      ensures Now() == Removed(old(Now()), key)
    {
      if key != All {
        channels := channels - {key};
      }
    }

    /** What is left is the all channel and the channels with a receiver. */
    method CleanupIdle()
      modifies this`channels
      ensures channels == map k | k in old(channels) && (k == All || HasReceivers(receivers, old(channels)[k])) :: old(channels)[k]
    {
      var todo := channels.Keys;
      while todo != {}
        invariant todo <= old(channels).Keys
        invariant channels == map k | k in old(channels) && (k in todo || k == All || HasReceivers(receivers, old(channels)[k])) ::
                                old(channels)[k]
        decreases |todo|
      {
        var key :| key in todo;
        var count := ReceiverCount(channels[key]);
        if key != All && count == 0 {
          channels := channels - {key};
        }
        todo := todo - {key};
      }
    }

    method ReceiverCount(channel: nat) returns (count: nat)
      ensures count > 0 <==> HasReceivers(receivers, channel)
    {
      var listening := set r | r in receivers && receivers[r].channel == channel;
      count := |listening|;
      assert count > 0 ==> exists r :: r in listening;
      assert forall r | r in receivers && receivers[r].channel == channel :: r in listening;
    }
  }
}
