/**
 * One poll cycle of `process_and_post_events` (bot.py): sort the fetched
 * activities by start time, keep those of the requested event type that are
 * trading-card-game events, name each one's discussion thread, and announce
 * those whose thread name is not among the channel's threads as they stood
 * when the cycle began.
 *
 * The HTTP replies are inputs (`SearchReply`, and the directions oracle inside
 * `Env`). The chat platform is the `Channel` class: its posts and threads are
 * logs that the cycle appends to.
 */
module Events {
  import opened Wrappers
  import MapLink
  import StartTime
  import Ordering

  /** The product every announced activity must list. */
  const Tcg := "tcg"
  /** The tag that makes an activity a League Cup. */
  const LeagueCupTag := "league_cup"
  /** What the bot writes into every thread it opens. */
  const Greeting := "@everyone Qui est intéressé ?"

  /**
   * One activity of the event-search reply. `None` stands for a key absent
   * from the record.
   */
  datatype Activity = Activity(
    tags: Option<seq<string>>,
    products: Option<seq<string>>,
    startDatetime: Option<string>,
    shopName: string,
    street: string,
    city: string,
    mapLink: string,
    pokemonUrl: string)

  /** The event-search reply: HTTP status and, on 200, the `activities` key. */
  datatype SearchReply = SearchReply(status: int, activities: Option<seq<Activity>>)

  /** The collaborators the cycle consults: the ISO parser and the directions service. */
  datatype Env = Env(parse: StartTime.IsoParser, route: string -> MapLink.Directions)

  /** The fields of one announcement, in the order its message lists them. */
  datatype Announcement = Announcement(
    threadName: string,
    typeLabel: string,
    shop: string,
    when: string,
    travel: string,
    city: string,
    street: string,
    pokemonUrl: string,
    mapLink: string)

  function Tags(a: Activity): seq<string> {
    if a.tags.Some? then a.tags.value else []
  }

  function Products(a: Activity): seq<string> {
    if a.products.Some? then a.products.value else []
  }

  /** The sort key: the start timestamp, or "" when it is missing. */
  function StartKey(a: Activity): string {
    if a.startDatetime.Some? then a.startDatetime.value else ""
  }

  /** The activity is of the requested type and is a trading-card-game event. */
  predicate Selected(a: Activity, eventType: string) {
    eventType in Tags(a) && Tcg in Products(a)
  }

  function TypeLabel(tags: seq<string>): (r: string)
    ensures r == "League Cup" || r == "League Challenge"
    ensures r == "League Cup" <==> LeagueCupTag in tags
  {
    if LeagueCupTag in tags then "League Cup" else "League Challenge"
  }

  /** The thread name, which is also the identity used to skip known activities. */
  const Separator := " - "
  /** The end of every thread name; the source writes two spaces before "Discussion". */
  const DiscussionSuffix := " -  Discussion"

  function ThreadTitle(when: string, city: string, shop: string): string {
    when + Separator + city + Separator + shop + DiscussionSuffix
  }

  /** A thread name starts with the date text and ends with " -  Discussion" (two spaces). */
  lemma ThreadTitleShape(when: string, city: string, shop: string)
    ensures var r := ThreadTitle(when, city, shop);
      && |r| >= |when| + 14
      && r[..|when|] == when
      && r[|r| - 14..] == " -  Discussion"
  {
    var r := ThreadTitle(when, city, shop);
    assert r[..|when|] == when;
    assert r[|r| - 14..] == DiscussionSuffix;
  }

  function ThreadName(a: Activity, parse: StartTime.IsoParser): string {
    ThreadTitle(StartTime.Format(a.startDatetime, parse), a.city, a.shopName)
  }

  function Announce(a: Activity, env: Env): Announcement {
    Announcement(
      ThreadName(a, env.parse),
      TypeLabel(Tags(a)),
      a.shopName,
      StartTime.Format(a.startDatetime, env.parse),
      MapLink.TravelTime(a.mapLink, env.route),
      a.city,
      a.street,
      a.pokemonUrl,
      a.mapLink)
  }

  const Header := "***Nouvel Evenement Detecté!***\n"

  /** The message posted for an announcement. */
  function Body(n: Announcement): string {
    Header + Details(n) + MapLine(n)
  }

  /** The labels of the announcement's lines, in order. */
  const TypeLabelField := "**Type:** "
  const ShopField := "**Boutique:** "
  const WhenField := "**Date et Heure:** "
  const TravelField := "**Temps de trajet:** "
  const CityField := "**Ville:** "
  const StreetField := "**Addresse:** "
  const PokemonField := "**Lien Pokemon.com:** "
  const MapField := "**Lien Google Maps:** "

  /** The lines between the header and the map link. */
  function Details(n: Announcement): string {
    TypeLabelField + n.typeLabel + "\n"
      + ShopField + n.shop + "\n"
      + WhenField + n.when + "\n"
      + TravelField + n.travel + "\n"
      + CityField + n.city + "\n"
      + StreetField + n.street + "\n"
      + PokemonField + n.pokemonUrl + "\n"
  }

  function MapLine(n: Announcement): string {
    MapField + n.mapLink
  }

  /** The message opens with the fixed header and closes with the map link. */
  lemma BodyShape(n: Announcement)
    ensures |Body(n)| >= |Header| && Body(n)[..|Header|] == Header
    ensures var tail := MapField + n.mapLink;
      |Body(n)| >= |tail| && Body(n)[|Body(n)| - |tail|..] == tail
  {
    var front := Header + Details(n);
    ConcatParts(Header, Details(n));
    ConcatParts(front, MapLine(n));
    assert Body(n)[..|Header|] == front[..|Header|];
  }

  lemma ConcatParts(a: string, b: string)
    ensures (a + b)[..|a|] == a && (a + b)[|a|..] == b
  {
  }

  // ---------------------------------------------------------------------
  // The cycle as functions
  // ---------------------------------------------------------------------

  /** Announced this cycle: selected, and its thread name is not in the snapshot. */
  predicate IsNew(a: Activity, eventType: string, existing: seq<string>, parse: StartTime.IsoParser) {
    Selected(a, eventType) && ThreadName(a, parse) !in existing
  }

  /** The activities of `acts` that are announced, in the order they are visited. */
  function Pending(acts: seq<Activity>, eventType: string, existing: seq<string>, parse: StartTime.IsoParser): seq<Activity> {
    if acts == [] then []
    else
      var last := acts[|acts| - 1];
      Pending(acts[..|acts| - 1], eventType, existing, parse)
        + (if IsNew(last, eventType, existing, parse) then [last] else [])
  }

  function Announcements(acts: seq<Activity>, eventType: string, existing: seq<string>, env: Env): seq<Announcement> {
    var p := Pending(acts, eventType, existing, env.parse);
    seq(|p|, k requires 0 <= k < |p| => Announce(p[k], env))
  }

  /** The activities of a reply: none unless the status is 200, `[]` when the key is absent. */
  function Fetched(reply: SearchReply): seq<Activity> {
    if reply.status != 200 then []
    else if reply.activities.Some? then reply.activities.value
    else []
  }

  function SortedActivities(reply: SearchReply): seq<Activity> {
    Ordering.SortBy(Fetched(reply), StartKey)
  }

  /** Everything one cycle announces, given the snapshot of thread names. */
  function CycleAnnouncements(reply: SearchReply, eventType: string, existing: seq<string>, env: Env): seq<Announcement> {
    Announcements(SortedActivities(reply), eventType, existing, env)
  }

  function Bodies(ns: seq<Announcement>): seq<string> {
    seq(|ns|, k requires 0 <= k < |ns| => Body(ns[k]))
  }

  function NamesOf(ns: seq<Announcement>): seq<string> {
    seq(|ns|, k requires 0 <= k < |ns| => ns[k].threadName)
  }

  // ---------------------------------------------------------------------
  // The chat platform and the imperative cycle
  // ---------------------------------------------------------------------

  datatype Thread = Thread(name: string, messages: seq<string>)

  function ThreadNames(ts: seq<Thread>): seq<string> {
    seq(|ts|, k requires 0 <= k < |ts| => ts[k].name)
  }

  function OpenedThreads(ns: seq<Announcement>): seq<Thread> {
    seq(|ns|, k requires 0 <= k < |ns| => Thread(ns[k].threadName, [Greeting]))
  }

  /** A text channel: the messages posted to it and the threads it holds. */
  class Channel {
    const name: string
    var posts: seq<string>
    var threads: seq<Thread>

    constructor (name: string, threads: seq<Thread>)
      ensures this.name == name && posts == [] && this.threads == threads
    {
      this.name := name;
      posts := [];
      this.threads := threads;
    }

    /** `channel.send(text)`. */
    method Send(text: string)
      modifies this
      ensures posts == old(posts) + [text] && threads == old(threads)
    {
      posts := posts + [text];
    }

    /** `message.create_thread(name=...)` followed by `thread.send(greeting)`. */
    method OpenThread(name: string, greeting: string)
      modifies this
      ensures threads == old(threads) + [Thread(name, [greeting])] && posts == old(posts)
    {
      threads := threads + [Thread(name, [greeting])];
    }
  }

  /** `discord.utils.get(channels, name=...)`: the first channel with that name. */
  function FindChannel(channels: seq<Channel>, name: string): (r: Option<Channel>)
    ensures r.Some? ==> r.value in channels && r.value.name == name
    ensures r.None? ==> forall c :: c in channels ==> c.name != name
    ensures r.Some? ==>
      exists k :: 0 <= k < |channels| && channels[k] == r.value && forall j :: 0 <= j < k ==> channels[j].name != name
  {
    if channels == [] then None
    else if channels[0].name == name then Some(channels[0])
    else
      var r := FindChannel(channels[1..], name);
      if r.Some? then FirstPastHead(channels, name, r.value); r else r
  }

  /** A first channel named `name` in the tail is the first one in the whole list. */
  lemma FirstPastHead(channels: seq<Channel>, name: string, c: Channel)
    requires channels != [] && channels[0].name != name
    requires var tail := channels[1..];
      exists k :: 0 <= k < |tail| && tail[k] == c && forall j :: 0 <= j < k ==> tail[j].name != name
    ensures exists k :: 0 <= k < |channels| && channels[k] == c && forall j :: 0 <= j < k ==> channels[j].name != name
  {
    var tail := channels[1..];
    var k :| 0 <= k < |tail| && tail[k] == c && forall j :: 0 <= j < k ==> tail[j].name != name;
    forall j | 0 <= j < k + 1 ensures channels[j].name != name {
      if j > 0 { assert channels[j] == tail[j - 1]; }
    }
    assert channels[k + 1] == c;
  }

  datatype CycleResult =
    | Completed
      /** No channel has the configured name; the source then calls `send` on `None`. */
    | ChannelMissing

  /**
   * One run of `process_and_post_events`. The named channel receives one post
   * and one new thread per announcement, in order; no other channel changes.
   */
  method ProcessAndPostEvents(channels: seq<Channel>, channelName: string, eventType: string,
                              reply: SearchReply, env: Env) returns (r: CycleResult)
    modifies channels
    ensures r == ChannelMissing <==> FindChannel(channels, channelName).None?
    ensures r == Completed ==>
      var c := FindChannel(channels, channelName).value;
      var ns := CycleAnnouncements(reply, eventType, ThreadNames(old(c.threads)), env);
      && c.posts == old(c.posts) + Bodies(ns)
      && c.threads == old(c.threads) + OpenedThreads(ns)
    ensures forall c :: c in channels && Some(c) != FindChannel(channels, channelName) ==>
      c.posts == old(c.posts) && c.threads == old(c.threads)
  {
    var found := FindChannel(channels, channelName);
    if found.None? {
      return ChannelMissing;
    }
    var channel := found.value;
    r := Completed;
    if reply.status != 200 {
      return;
    }
    var activities := if reply.activities.Some? then reply.activities.value else [];
    var sorted := Ordering.SortBy(activities, StartKey);
    assert sorted == SortedActivities(reply);
    var existing := ThreadNames(channel.threads);
    PostNew(channel, sorted, eventType, existing, env);
  }

  /**
   * The loop over the sorted activities, against the thread names read
   * before it started.
   */
  method PostNew(channel: Channel, sorted: seq<Activity>, eventType: string, existing: seq<string>, env: Env)
    modifies channel
    ensures var ns := Announcements(sorted, eventType, existing, env);
      && channel.posts == old(channel.posts) + Bodies(ns)
      && channel.threads == old(channel.threads) + OpenedThreads(ns)
  {
    var i := 0;
    ghost var before, startThreads := channel.posts, channel.threads;
    while i < |sorted|
      invariant 0 <= i <= |sorted|
      invariant channel.posts == before + Bodies(Announcements(sorted[..i], eventType, existing, env))
      invariant channel.threads == startThreads + OpenedThreads(Announcements(sorted[..i], eventType, existing, env))
    {
      ghost var done := Announcements(sorted[..i], eventType, existing, env);
      ghost var step := Step(sorted[i], eventType, existing, env);
      AnnouncementsStep(sorted, i, eventType, existing, env);
      ghost var posts, threads := channel.posts, channel.threads;
      Visit(channel, sorted[i], eventType, existing, env);
      Extended(before, startThreads, done, step, posts, threads, channel.posts, channel.threads);
      i := i + 1;
    }
    assert sorted[..|sorted|] == sorted;
  }

  /** The loop's bookkeeping: the logs grow by what one more visit announces. */
  lemma Extended(before: seq<string>, startThreads: seq<Thread>, done: seq<Announcement>, step: seq<Announcement>,
                 posts: seq<string>, threads: seq<Thread>, grown: seq<string>, grownThreads: seq<Thread>)
    requires posts == before + Bodies(done) && threads == startThreads + OpenedThreads(done)
    requires grown == posts + Bodies(step) && grownThreads == threads + OpenedThreads(step)
    ensures grown == before + Bodies(done + step) && grownThreads == startThreads + OpenedThreads(done + step)
  {
    Appended(done, step);
  }

  /** The body of the loop: announce one activity if it is selected and new. */
  method Visit(channel: Channel, activity: Activity, eventType: string, existing: seq<string>, env: Env)
    modifies channel
    ensures var ns := Step(activity, eventType, existing, env);
      && channel.posts == old(channel.posts) + Bodies(ns)
      && channel.threads == old(channel.threads) + OpenedThreads(ns)
  {
    var tags := Tags(activity);
    var products := Products(activity);
    if eventType in tags && Tcg in products {
      var formatted := StartTime.Format(activity.startDatetime, env.parse);
      var threadName := ThreadTitle(formatted, activity.city, activity.shopName);
      var travelTime := MapLink.TravelTime(activity.mapLink, env.route);
      if threadName !in existing {
        var n := Announcement(
          threadName, TypeLabel(tags), activity.shopName,
          formatted, travelTime, activity.city, activity.street, activity.pokemonUrl, activity.mapLink);
        assert n == Announce(activity, env);
        var details := Body(n);
        channel.Send(details);
        channel.OpenThread(threadName, Greeting);
      }
    }
  }

  /** What visiting one activity announces. */
  function Step(a: Activity, eventType: string, existing: seq<string>, env: Env): seq<Announcement> {
    if IsNew(a, eventType, existing, env.parse) then [Announce(a, env)] else []
  }

  /** How the announcements grow when the loop visits one more activity. */
  lemma AnnouncementsStep(s: seq<Activity>, i: nat, eventType: string, existing: seq<string>, env: Env)
    requires i < |s|
    ensures Announcements(s[..i + 1], eventType, existing, env) ==
      Announcements(s[..i], eventType, existing, env) + Step(s[i], eventType, existing, env)
  {
    assert s[..i + 1][..i] == s[..i];
  }

  lemma Appended(ns: seq<Announcement>, more: seq<Announcement>)
    ensures Bodies(ns + more) == Bodies(ns) + Bodies(more)
    ensures OpenedThreads(ns + more) == OpenedThreads(ns) + OpenedThreads(more)
  {
  }

  // ---------------------------------------------------------------------
  // Which activities are announced
  // ---------------------------------------------------------------------

  /** An activity is announced exactly when it is visited and is new. */
  lemma {:induction false} PendingMember(acts: seq<Activity>, eventType: string, existing: seq<string>,
                                         parse: StartTime.IsoParser, a: Activity)
    ensures a in Pending(acts, eventType, existing, parse) <==> a in acts && IsNew(a, eventType, existing, parse)
    decreases |acts|
  {
    if acts != [] {
      var init := acts[..|acts| - 1];
      PendingMember(init, eventType, existing, parse, a);
      assert acts == init + [acts[|acts| - 1]];
    }
  }

  /**
   * The snapshot is the only memory of the cycle: what is announced from
   * xs + ys is what is announced from xs followed by what is announced from
   * ys. In particular two activities of one cycle with the same thread name
   * are both announced.
   */
  lemma {:induction false} PendingConcat(xs: seq<Activity>, ys: seq<Activity>, eventType: string,
                                         existing: seq<string>, parse: StartTime.IsoParser)
    ensures Pending(xs + ys, eventType, existing, parse) ==
      Pending(xs, eventType, existing, parse) + Pending(ys, eventType, existing, parse)
    decreases |ys|
  {
    if ys == [] {
      assert xs + ys == xs;
    } else {
      var init := ys[..|ys| - 1];
      PendingConcat(xs, init, eventType, existing, parse);
      assert (xs + ys)[..|xs + ys| - 1] == xs + init;
    }
  }

  /**
   * Two new activities with one thread name, in one cycle: both are announced,
   * because the second is compared with the snapshot, not with the first.
   */
  lemma SameNameBothAnnounced(a: Activity, b: Activity, eventType: string, existing: seq<string>,
                              parse: StartTime.IsoParser)
    requires ThreadName(a, parse) == ThreadName(b, parse)
    requires IsNew(a, eventType, existing, parse) && IsNew(b, eventType, existing, parse)
    ensures Pending([a, b], eventType, existing, parse) == [a, b]
  {
    PendingConcat([a], [b], eventType, existing, parse);
    assert [a] + [b] == [a, b];
    PendingSingle(a, eventType, existing, parse);
    PendingSingle(b, eventType, existing, parse);
  }

  lemma PendingSingle(x: Activity, eventType: string, existing: seq<string>, parse: StartTime.IsoParser)
    ensures Pending([x], eventType, existing, parse) == if IsNew(x, eventType, existing, parse) then [x] else []
  {
    assert [x][..0] == [];
  }

  /** Nothing new among the visited activities: nothing is announced. */
  lemma PendingEmpty(acts: seq<Activity>, eventType: string, existing: seq<string>, parse: StartTime.IsoParser)
    requires forall a :: a in acts ==> !IsNew(a, eventType, existing, parse)
    ensures Pending(acts, eventType, existing, parse) == []
  {
    var p := Pending(acts, eventType, existing, parse);
    if p != [] {
      PendingMember(acts, eventType, existing, parse, p[0]);
      assert false;
    }
  }

  /** Every new activity's thread name is among the names announced. */
  lemma NewNameAnnounced(acts: seq<Activity>, eventType: string, existing: seq<string>, env: Env, a: Activity)
    requires a in acts && IsNew(a, eventType, existing, env.parse)
    ensures ThreadName(a, env.parse) in NamesOf(Announcements(acts, eventType, existing, env))
  {
    var p := Pending(acts, eventType, existing, env.parse);
    PendingMember(acts, eventType, existing, env.parse, a);
    var k :| 0 <= k < |p| && p[k] == a;
    var ns := Announcements(acts, eventType, existing, env);
    assert NamesOf(ns)[k] == ThreadName(a, env.parse);
  }

  // ---------------------------------------------------------------------
  // The cycle
  // ---------------------------------------------------------------------

  /**
   * An activity of the reply is announced by the cycle exactly when the reply
   * is a 200, the activity is of the requested type and a TCG event, and its
   * thread name is not in the snapshot.
   */
  lemma CycleAnnouncesExactlyNew(reply: SearchReply, eventType: string, existing: seq<string>,
                                 parse: StartTime.IsoParser, a: Activity)
    ensures a in Pending(SortedActivities(reply), eventType, existing, parse) <==>
      && reply.status == 200
      && a in Fetched(reply)
      && Selected(a, eventType)
      && ThreadName(a, parse) !in existing
  {
    PendingMember(SortedActivities(reply), eventType, existing, parse, a);
    Ordering.SortByPermutation(Fetched(reply), StartKey);
    assert a in SortedActivities(reply) <==> a in multiset(SortedActivities(reply));
  }

  /**
   * Running the cycle again on the same reply, once the threads it opened are
   * among the channel's threads, announces nothing.
   */
  lemma CycleRerunAnnouncesNothing(reply: SearchReply, eventType: string, existing: seq<string>, env: Env)
    ensures var ns := CycleAnnouncements(reply, eventType, existing, env);
      CycleAnnouncements(reply, eventType, existing + NamesOf(ns), env) == []
  {
    var s := SortedActivities(reply);
    var ns := CycleAnnouncements(reply, eventType, existing, env);
    var later := existing + NamesOf(ns);
    forall a | a in s ensures !IsNew(a, eventType, later, env.parse) {
      if IsNew(a, eventType, existing, env.parse) {
        NewNameAnnounced(s, eventType, existing, env, a);
      }
    }
    PendingEmpty(s, eventType, later, env.parse);
  }

  /** The names of a channel's threads after the cycle opened its threads. */
  lemma ThreadNamesAfterCycle(ts: seq<Thread>, ns: seq<Announcement>)
    ensures ThreadNames(ts + OpenedThreads(ns)) == ThreadNames(ts) + NamesOf(ns)
  {
  }

  // ---------------------------------------------------------------------
  // Order of the announcements
  // ---------------------------------------------------------------------

  /** Announcing keeps the visiting order, so a sorted visit gives sorted announcements. */
  lemma {:induction false} PendingSorted(acts: seq<Activity>, eventType: string, existing: seq<string>,
                                         parse: StartTime.IsoParser)
    requires Ordering.SortedBy(acts, StartKey)
    ensures Ordering.SortedBy(Pending(acts, eventType, existing, parse), StartKey)
    decreases |acts|
  {
    if acts != [] {
      var init, last := acts[..|acts| - 1], acts[|acts| - 1];
      var p := Pending(init, eventType, existing, parse);
      assert Ordering.SortedBy(init, StartKey) by {
        forall i, j | 0 <= i < j < |init| ensures Ordering.LexLe(StartKey(init[i]), StartKey(init[j])) {
          assert init[i] == acts[i] && init[j] == acts[j];
        }
      }
      PendingSorted(init, eventType, existing, parse);
      if IsNew(last, eventType, existing, parse) {
        var r := p + [last];
        forall i, j | 0 <= i < j < |r| ensures Ordering.LexLe(StartKey(r[i]), StartKey(r[j])) {
          if j == |p| {
            var y := r[i];
            assert y == p[i];
            PendingMember(init, eventType, existing, parse, y);
            var m :| 0 <= m < |init| && init[m] == y;
            assert acts[m] == y;
          }
        }
      }
    }
  }

  lemma {:induction false} WithKeyConcat(xs: seq<Activity>, ys: seq<Activity>, k: string)
    ensures Ordering.WithKey(xs + ys, StartKey, k) ==
      Ordering.WithKey(xs, StartKey, k) + Ordering.WithKey(ys, StartKey, k)
    decreases |xs|
  {
    if xs == [] {
      assert xs + ys == ys;
    } else {
      WithKeyConcat(xs[1..], ys, k);
      assert (xs + ys)[1..] == xs[1..] + ys;
    }
  }

  /** Taking one start key and taking the announced activities can be done in either order. */
  lemma {:induction false} PendingWithKey(acts: seq<Activity>, eventType: string, existing: seq<string>,
                                          parse: StartTime.IsoParser, k: string)
    ensures Ordering.WithKey(Pending(acts, eventType, existing, parse), StartKey, k) ==
      Pending(Ordering.WithKey(acts, StartKey, k), eventType, existing, parse)
    decreases |acts|
  {
    if acts != [] {
      var x, rest := acts[0], acts[1..];
      var single := Pending([x], eventType, existing, parse);
      PendingSingle(x, eventType, existing, parse);
      var kept := if StartKey(x) == k then [x] else [];
      assert Ordering.WithKey(acts, StartKey, k) == kept + Ordering.WithKey(rest, StartKey, k);
      PendingConcat([x], rest, eventType, existing, parse);
      assert [x] + rest == acts;
      PendingConcat(kept, Ordering.WithKey(rest, StartKey, k), eventType, existing, parse);
      WithKeyConcat(single, Pending(rest, eventType, existing, parse), k);
      PendingWithKey(rest, eventType, existing, parse, k);
      assert Ordering.WithKey(single, StartKey, k) == Pending(kept, eventType, existing, parse) by {
        if StartKey(x) == k {
          assert kept == [x];
        } else {
          assert kept == [];
        }
      }
    }
  }

  /**
   * The cycle's announcements come out in the order Python's stable sort by
   * start time gives the announced activities: nondecreasing start keys (a
   * missing key counting as ""), ties in reply order.
   */
  lemma SelectThenSort(acts: seq<Activity>, eventType: string, existing: seq<string>, parse: StartTime.IsoParser)
    ensures Pending(Ordering.SortBy(acts, StartKey), eventType, existing, parse) ==
      Ordering.SortBy(Pending(acts, eventType, existing, parse), StartKey)
  {
    var sorted := Ordering.SortBy(acts, StartKey);
    var r := Pending(sorted, eventType, existing, parse);
    Ordering.SortBySorted(acts, StartKey);
    PendingSorted(sorted, eventType, existing, parse);
    forall k ensures Ordering.WithKey(r, StartKey, k) == Ordering.WithKey(Pending(acts, eventType, existing, parse), StartKey, k) {
      PendingWithKey(sorted, eventType, existing, parse, k);
      Ordering.SortByStable(acts, StartKey, k);
      PendingWithKey(acts, eventType, existing, parse, k);
    }
    Ordering.SortByIsTheStableSort(Pending(acts, eventType, existing, parse), r, StartKey);
  }

  const Jan1 := "2024-01-01T09:00:00Z"
  const Jan2 := "2024-01-02T08:00:00Z"
  const Jan3 := "2024-01-03T10:00:00Z"

  lemma ExampleKeysOrdered()
    ensures Ordering.LexLe(Jan1, Jan2) && !Ordering.LexLe(Jan3, Jan1) && !Ordering.LexLe(Jan3, Jan2)
  {
  }

  /** Three activities listed out of order come out by start date. */
  lemma SortExample(a1: Activity, a2: Activity, a3: Activity)
    requires a1.startDatetime == Some(Jan1)
    requires a2.startDatetime == Some(Jan2)
    requires a3.startDatetime == Some(Jan3)
    ensures Ordering.SortBy([a3, a1, a2], StartKey) == [a1, a2, a3]
  {
    ExampleKeysOrdered();
    assert [a3, a1, a2][1..] == [a1, a2];
    assert [a1, a2][1..] == [a2];
    assert Ordering.SortBy([a2], StartKey) == [a2];
    assert Ordering.SortBy([a1, a2], StartKey) == [a1, a2];
    assert Ordering.Insert(a3, [a2], StartKey) == [a2, a3];
    assert Ordering.Insert(a3, [a1, a2], StartKey) == [a1, a2, a3];
  }

  /**
   * Two cycles in a row on the same reply, as the two-minute loop runs them
   * when nothing changed remotely: the second posts nothing and opens no thread.
   */
  method RepeatedCycle(channels: seq<Channel>, channelName: string, eventType: string,
                       reply: SearchReply, env: Env) returns (first: CycleResult, second: CycleResult)
    modifies channels
    ensures first == second
    ensures FindChannel(channels, channelName).Some? ==>
      var c := FindChannel(channels, channelName).value;
      var ns := CycleAnnouncements(reply, eventType, ThreadNames(old(c.threads)), env);
      && c.posts == old(c.posts) + Bodies(ns)
      && c.threads == old(c.threads) + OpenedThreads(ns)
    ensures forall c :: c in channels && Some(c) != FindChannel(channels, channelName) ==>
      c.posts == old(c.posts) && c.threads == old(c.threads)
  {
    first := ProcessAndPostEvents(channels, channelName, eventType, reply, env);
    if first == Completed {
      var c := FindChannel(channels, channelName).value;
      ghost var ns := CycleAnnouncements(reply, eventType, ThreadNames(old(c.threads)), env);
      ThreadNamesAfterCycle(old(c.threads), ns);
      CycleRerunAnnouncesNothing(reply, eventType, ThreadNames(old(c.threads)), env);
      second := ProcessAndPostEvents(channels, channelName, eventType, reply, env);
      assert Bodies([]) == [] && OpenedThreads([]) == [];
    } else {
      second := ProcessAndPostEvents(channels, channelName, eventType, reply, env);
    }
  }
}
