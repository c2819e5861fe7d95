/** The watch call: which channel it listens to, which events it forwards, and what its
    filter patterns mean. Text stands for its bytes. */
module Watch {
  import opened Common
  import opened EventBus
  import opened Text

  // ---- Filters ----

  predicate EndsWith(t: string, s: string) { |s| <= |t| && t[|t| - |s|..] == s }

  predicate MatchesFilter(eventType: string, filter: string) {
    if filter == "" || filter == "*" then true
    else if EndsWith(filter, ".*") then
      var prefix := filter[..|filter| - 2];
      StartsWith(eventType, prefix) && |prefix| < |eventType| && eventType[|prefix|] == '.'
    else if StartsWith(filter, "*.") then
      var suffix := filter[2..];
      EndsWith(eventType, suffix) && |eventType| > |suffix| && eventType[|eventType| - |suffix| - 1] == '.'
    else eventType == filter
  }

  /** `p.*` matches the types `p.` followed by anything. */
  lemma PrefixPattern(eventType: string, p: string)
    ensures MatchesFilter(eventType, p + ".*") <==> exists rest: string :: eventType == p + "." + rest
  {
    var filter := p + ".*";
    assert filter[|filter| - 2..] == ".*" && filter[..|filter| - 2] == p;
    if MatchesFilter(eventType, filter) {
      assert eventType == p + "." + eventType[|p| + 1..];
    }
    if rest: string :| eventType == p + "." + rest {
      assert eventType[..|p|] == p;
    }
  }

  lemma StarDotEnds(s: string)
    ensures EndsWith("*." + s, ".*") <==> s == "*" || (|s| >= 2 && EndsWith(s, ".*"))
  {
    var filter := "*." + s;
    if |s| == 0 {
      assert filter[|filter| - 2] == '*';
    } else if |s| == 1 {
      assert filter[|filter| - 2..] == "." + s && s == [s[0]];
      assert filter[|filter| - 1] == s[0];
    } else {
      assert filter[|filter| - 2..] == s[|s| - 2..];
    }
  }

  /** `*.s` matches exactly the types that are anything followed by `.s` if and only if `s` is
      neither a star nor ends in `.*`: otherwise the pattern is read as a prefix that begins
      with a star, and `x.s` does not match. */
  lemma SuffixPattern(s: string)
    ensures (forall t: string :: MatchesFilter(t, "*." + s) <==> IsSuffixed(t, s)) <==>
            s != "*" && (|s| < 2 || !EndsWith(s, ".*"))
    ensures !EndsWith("*." + s, ".*") <==> s != "*" && (|s| < 2 || !EndsWith(s, ".*"))
  {
    StarDotEnds(s);
    if EndsWith("*." + s, ".*") {
      var t := "x." + s;
      PrefixReading(s);
      assert t == "x" + "." + s;
      assert IsSuffixed(t, s) && !MatchesFilter(t, "*." + s);
    } else {
      forall t: string ensures MatchesFilter(t, "*." + s) <==> IsSuffixed(t, s) { SuffixReading(t, s); }
    }
  }

  predicate IsSuffixed(t: string, s: string) {
    |t| > |s| && t[|t| - |s|..] == s && t[|t| - |s| - 1] == '.'
  }

  /** That is: the type is a rest, a dot, and `s`. */
  lemma SuffixedIff(t: string, s: string)
    ensures IsSuffixed(t, s) <==> exists rest: string :: t == rest + "." + s
  {
    if IsSuffixed(t, s) {
      assert t == t[..|t| - |s| - 1] + "." + s;
    }
    if rest: string :| t == rest + "." + s {
      assert t[|t| - |s|..] == s && t[|rest|] == '.';
    }
  }

  lemma SuffixReading(t: string, s: string)
    requires !EndsWith("*." + s, ".*")
    ensures MatchesFilter(t, "*." + s) <==> IsSuffixed(t, s)
  {
    var filter := "*." + s;
    assert filter[2..] == s && filter[..2] == "*.";
  }

  lemma PrefixReading(s: string)
    requires EndsWith("*." + s, ".*")
    ensures !MatchesFilter("x." + s, "*." + s)
  {
    var filter, t := "*." + s, "x." + s;
    var prefix := filter[..|filter| - 2];
    assert filter[|filter| - 1] == ".*"[1] by { assert filter[|filter| - 2..][1] == ".*"[1]; }
    assert prefix[0] == '*' && t[0] == 'x';
    assert !StartsWith(t, prefix) by { assert t[..|prefix|][0] == 'x'; }
  }

  /** Any other filter is a type to match exactly; none, or a lone star, matches all. */
  lemma PlainPattern(eventType: string, filter: string)
    ensures filter == "" || filter == "*" ==> MatchesFilter(eventType, filter)
    ensures filter != "" && filter != "*" && !EndsWith(filter, ".*") && !StartsWith(filter, "*.") ==>
              (MatchesFilter(eventType, filter) <==> eventType == filter)
  {
  }

  // ---- Forwarding ----

  datatype Received = Got(event: Event) | Lagged(n: nat)

  predicate Wants(e: Event, self: nat, filter: string) {
    e.session != self && MatchesFilter(e.kind, filter)
  }

  /** The wanted events of a stream, in order. */
  function Wanted(stream: seq<Event>, self: nat, filter: string): seq<Event> {
    if stream == [] then []
    else
      var last := stream[|stream| - 1];
      Wanted(stream[..|stream| - 1], self, filter) + if Wants(last, self, filter) then [last] else []
  }

  function Events(items: seq<Received>): seq<Event> {
    if items == [] then []
    else Events(items[..|items| - 1]) + if items[|items| - 1].Got? then [items[|items| - 1].event] else []
  }

  lemma WantedOne(stream: seq<Event>, e: Event, self: nat, filter: string)
    ensures Wanted(stream + [e], self, filter) == Wanted(stream, self, filter) + if Wants(e, self, filter) then [e] else []
  {
    assert (stream + [e])[..|stream|] == stream;
  }

  lemma {:induction false} WantedGrows(items: seq<Received>, n: nat, self: nat, filter: string)
    requires n <= |items|
    ensures Wanted(Events(items[..n]), self, filter) <= Wanted(Events(items), self, filter)
    decreases |items| - n
  {
    if n == |items| {
      assert items[..n] == items;
    } else {
      WantedGrows(items, n + 1, self, filter);
      assert items[..n + 1][..n] == items[..n];
      if items[n].Got? {
        WantedOne(Events(items[..n]), items[n].event, self, filter);
      } else {
        assert Events(items[..n + 1]) == Events(items[..n]);
      }
    }
  }

  lemma {:induction false} WantedAre(items: seq<Received>, self: nat, filter: string)
    ensures forall e :: e in Wanted(Events(items), self, filter) <==>
              Got(e) in items && e.session != self && MatchesFilter(e.kind, filter)
  {
    if items != [] {
      var front, last := items[..|items| - 1], items[|items| - 1];
      WantedAre(front, self, filter);
      assert items == front + [last];
      if last.Got? {
        WantedOne(Events(front), last.event, self, filter);
      } else {
        assert Events(items) == Events(front);
      }
    }
  }

  /** The channel: the repository of the request, else that of the session's codebase, else
      everything. It is never the empty key, on which nothing is ever published. */
  function ChannelFor(requested: Key, resolved: Option<Key>): (key: Key)
    ensures key != NoRepo
    ensures key == All <==> requested == All || (requested == NoRepo && resolved in {None, Some(NoRepo), Some(All)})
    ensures requested != NoRepo ==> key == requested
    ensures requested == NoRepo && resolved.Some? && resolved.value.Repo? ==> key == resolved.value
  {
    var repo := if requested != NoRepo then requested else if resolved.Some? then resolved.value else NoRepo;
    if repo == NoRepo then All else repo
  }

  /** The forwarding loop over what the receiver yields until it is closed; the client takes
      `accepts` messages and is gone at the next. It gets the wanted events in order, from
      the first, and nothing else. */
  method HandleWatch(items: seq<Received>, self: nat, filter: string, accepts: nat) returns (forwarded: seq<Event>)
    ensures forwarded <= Wanted(Events(items), self, filter)
    ensures |forwarded| <= accepts
    ensures |forwarded| < accepts ==> forwarded == Wanted(Events(items), self, filter)
    ensures forall e | e in forwarded :: e.session != self && MatchesFilter(e.kind, filter) && Got(e) in items
    ensures |forwarded| < accepts ==>
              forall e | Got(e) in items && e.session != self && MatchesFilter(e.kind, filter) :: e in forwarded
  {
    WantedAre(items, self, filter);
    forwarded := [];
    for i := 0 to |items|
      invariant |forwarded| <= accepts
      invariant forwarded == Wanted(Events(items[..i]), self, filter)
    {
      assert items[..i + 1][..i] == items[..i];
      match items[i] {
        case Got(event) =>
          WantedOne(Events(items[..i]), event, self, filter);
          if event.session == self {
            continue;
          }
          if MatchesFilter(event.kind, filter) {
            if |forwarded| == accepts {
              WantedGrows(items, i, self, filter);
              return;
            }
            forwarded := forwarded + [event];
          }
        case Lagged(_) => assert Events(items[..i + 1]) == Events(items[..i]);
      }
    }
    assert items[..|items|] == items;
  }

  predicate WantsOf(e: Event, repo: Key, self: nat, filter: string) {
    e.repo == repo && Wants(e, self, filter)
  }

  function WantedOf(stream: seq<Event>, repo: Key, self: nat, filter: string): seq<Event> {
    if stream == [] then []
    else
      var last := stream[|stream| - 1];
      WantedOf(stream[..|stream| - 1], repo, self, filter) + if WantsOf(last, repo, self, filter) then [last] else []
  }

  lemma {:induction false} WantedOfRepo(stream: seq<Event>, repo: Key, self: nat, filter: string)
    ensures Wanted(OfRepo(stream, repo), self, filter) == WantedOf(stream, repo, self, filter)
  {
    if stream != [] {
      var front := stream[..|stream| - 1];
      WantedOfRepo(front, repo, self, filter);
      var last := stream[|stream| - 1];
      if last.repo == repo {
        WantedOne(OfRepo(front, repo), last, self, filter);
      } else {
        assert OfRepo(stream, repo) == OfRepo(front, repo);
      }
    }
  }

  lemma {:induction false} WantedCounts(stream: seq<Event>, self: nat, filter: string, e: Event)
    ensures multiset(Wanted(stream, self, filter))[e] == if Wants(e, self, filter) then multiset(stream)[e] else 0
  {
    if stream != [] {
      var front, last := stream[..|stream| - 1], stream[|stream| - 1];
      WantedCounts(front, self, filter, e);
      assert stream == front + [last];
    }
  }

  lemma {:induction false} GotIsEvent(items: seq<Received>, e: Event)
    ensures Got(e) in items <==> e in Events(items)
  {
    if items != [] {
      var front, last := items[..|items| - 1], items[|items| - 1];
      GotIsEvent(front, e);
      assert items == front + [last];
    }
  }

  /** What a watch that listens to `key` is to be sent of what is published in one go. */
  function ToSend(published: seq<Event>, key: Key, self: nat, filter: string): seq<Event> {
    if key == All then Wanted(Heard(published, All), self, filter) else WantedOf(published, key, self, filter)
  }

  lemma SentInOneGo(ready: State, actions: seq<Action>, key: Key, self: nat, filter: string)
    requires key != NoRepo && forall x | x in actions :: InOneGo(x)
    ensures Wanted(Sends(ready, actions, key), self, filter) == ToSend(Publications(actions), key, self, filter)
  {
    SendsInOneGo(ready, actions, key);
    if key != All {
      HeardIsOfRepo(Publications(actions), key);
      WantedOfRepo(Publications(actions), key, self, filter);
    }
  }

  lemma SubscribedHears(st: State, actions: seq<Action>, r: nat, key: Key)
    requires Inv(st) && forall x | x in actions :: Spares(x, r, key)
    ensures var ready := Subscribed(st, key, r);
            && Inv(ready) && Connected(ready, r, key) && ready.receivers[r].stream == []
            && r in Run(ready, actions).receivers && Run(ready, actions).receivers[r].stream == Sends(ready, actions, key)
  {
    var ready := Subscribed(st, key, r);
    SubscribedKeeps(st, key, r);
    ReceiverHearsItsKey(ready, actions, r, key);
    assert [] + Sends(ready, actions, key) == Sends(ready, actions, key);
  }

  /** Each wanted publish of a repository is to be sent once: those held unsent on its channel
      at the subscription and those begun since, but for those still held unsent. */
  lemma EachIsWantedOnce(ready: State, actions: seq<Action>, r: nat, self: nat, filter: string, e: Event)
    requires Inv(ready) && e.repo.Repo? && Connected(ready, r, e.repo) && ready.receivers[r].stream == []
    requires (forall x | x in actions :: Spares(x, r, e.repo)) && Wants(e, self, filter)
    ensures multiset(Wanted(Sends(ready, actions, e.repo), self, filter))[e] + Unsent(Run(ready, actions), e) ==
            Unsent(ready, e) + multiset(Publications(actions))[e]
  {
    EachPublishIsHeardOnce(ready, actions, r, e);
    ReceiverHearsItsKey(ready, actions, r, e.repo);
    assert [] + Sends(ready, actions, e.repo) == Sends(ready, actions, e.repo);
    WantedCounts(Sends(ready, actions, e.repo), self, filter, e);
  }

  /** End to end, however publishes overlap and whatever else goes on at the bus: until it goes
      away, the client of a watch is sent, from the first and in the order of the sends,
      exactly what is sent on its channel from its subscription on by other sessions and
      matches its filter. Of a repository that is each such publish once, and with
      publishes made in one go it is the order of publication. */
  method WatchSeesItsRepository(ghost start: seq<Action>, ghost actions: seq<Action>, ghost r: nat,
                                requested: Key, resolved: Option<Key>, self: nat, filter: string,
                                items: seq<Received>, accepts: nat) returns (forwarded: seq<Event>)
    requires var key := if requested != NoRepo then requested
                        else if resolved.Some? && resolved.value != NoRepo then resolved.value else All;
             && (forall x | x in actions :: Spares(x, r, key))
             && var end := Run(Subscribed(Run(START, start), key, r), actions);
                r in end.receivers && Events(items) == end.receivers[r].stream
    ensures var key := if requested != NoRepo then requested
                       else if resolved.Some? && resolved.value != NoRepo then resolved.value else All;
            var ready := Subscribed(Run(START, start), key, r);
            var wanted := Wanted(Sends(ready, actions, key), self, filter);
            && forwarded <= wanted && |forwarded| <= accepts && (|forwarded| < accepts ==> forwarded == wanted)
            && ((forall x | x in actions :: InOneGo(x)) ==> wanted == ToSend(Publications(actions), key, self, filter))
            && (key.Repo? ==> forall e | e in forwarded :: e.repo == key)
            && (forall e: Event | key.Repo? && e.repo == key && Wants(e, self, filter) ::
                  multiset(wanted)[e] + Unsent(Run(ready, actions), e) == Unsent(ready, e) + multiset(Publications(actions))[e])
  {
    ghost var key := ChannelFor(requested, resolved);
    ghost var ready := Subscribed(Run(START, start), key, r);
    RunKeeps(START, start);
    SubscribedHears(Run(START, start), actions, r, key);
    if forall x | x in actions :: InOneGo(x) { SentInOneGo(ready, actions, key, self, filter); }
    forall e: Event | key.Repo? && e.repo == key && Wants(e, self, filter)
      ensures multiset(Wanted(Sends(ready, actions, key), self, filter))[e] + Unsent(Run(ready, actions), e) ==
              Unsent(ready, e) + multiset(Publications(actions))[e]
    {
      EachIsWantedOnce(ready, actions, r, self, filter, e);
    }
    forwarded := HandleWatch(items, self, filter, accepts);
    if key.Repo? {
      SubscribedKeeps(Run(START, start), key, r);
      SendsAreOfTheKey(ready, actions, key);
      forall e | e in forwarded ensures e.repo == key { assert Got(e) in items; GotIsEvent(items, e); }
    }
  }
}
