/** The in-memory TTL cache (cache/provider/memory.go). */
module MemoryCache {
  import opened Common

  datatype Entry<V> = Entry(value: V, expiresAt: int)

  /** One call, with the clock reading it took. */
  datatype Call<V> =
    | Set(group: string, key: string, value: V, now: int, ttl: int)
    | Get(group: string, key: string, now: int)
    | Delete(group: string, key: string)

  function GroupKey(group: string, key: string): string {
    group + ":" + key
  }

  function CallKey<V>(c: Call<V>): string {
    GroupKey(c.group, c.key)
  }

  // ---------- What a history of calls means ----------

  /** The entry written by the last Set of a storage key that no Delete undid. */
  ghost function LastSet<V>(history: seq<Call<V>>, k: string): Option<Entry<V>> {
    if history == [] then None
    else
      var (before, last) := (history[..|history| - 1], history[|history| - 1]);
      if last.Get? || CallKey(last) != k then LastSet(before, k)
      else if last.Delete? then None
      else Some(Entry(last.value, last.now + last.ttl))
  }

  ghost predicate ReadPastExpiry<V>(history: seq<Call<V>>, k: string, now: int) {
    LastSet(history, k).Some? && now > LastSet(history, k).value.expiresAt
  }

  /** A Get has read the key after its current entry's expiry. */
  ghost predicate SeenExpired<V>(history: seq<Call<V>>, k: string) {
    history != [] &&
    var (before, last) := (history[..|history| - 1], history[|history| - 1]);
    if CallKey(last) != k then SeenExpired(before, k)
    else last.Get? && (SeenExpired(before, k) || ReadPastExpiry(before, k, last.now))
  }

  /** The cache as documented: a key per (group, key) pair, live up to and including its expiry. */
  ghost function LastSetOf<V>(history: seq<Call<V>>, group: string, key: string): Option<Entry<V>> {
    if history == [] then None
    else
      var (before, last) := (history[..|history| - 1], history[|history| - 1]);
      if last.Get? || last.group != group || last.key != key then LastSetOf(before, group, key)
      else if last.Delete? then None
      else Some(Entry(last.value, last.now + last.ttl))
  }

  ghost function Reference<V>(history: seq<Call<V>>, group: string, key: string, now: int): Option<V> {
    match LastSetOf(history, group, key)
    case None => None
    case Some(e) => if now <= e.expiresAt then Some(e.value) else None
  }

  /** Clock readings never went down, and none is later than `now`. */
  ghost predicate ClockRanForward<V>(history: seq<Call<V>>, now: int)
    decreases |history|
  {
    history == [] ||
    var (before, last) := (history[..|history| - 1], history[|history| - 1]);
    if last.Delete? then ClockRanForward(before, now)
    else last.now <= now && ClockRanForward(before, last.now)
  }

  /** One group is not the other one, a colon and something more. */
  predicate Apart(g: string, h: string) {
    g == h || !(g + ":" <= h || h + ":" <= g)
  }

  /** Every group of the history is apart from this one. */
  ghost predicate ApartFrom<V>(history: seq<Call<V>>, group: string) {
    forall c | c in history :: Apart(c.group, group)
  }

  /** What Get answers after the calls of the history. */
  ghost function Answer<V>(history: seq<Call<V>>, group: string, key: string, now: int): Option<V> {
    var k := GroupKey(group, key);
    var last := LastSet(history, k);
    if last.Some? && !SeenExpired(history, k) && now <= last.value.expiresAt then Some(last.value.value) else None
  }

  // ---------- The provider ----------

  class Memory<V> {
    var storage: map<string, Entry<V>>
    ghost var history: seq<Call<V>>

    /** An entry is stored exactly while it is the last one set and no Get has seen it expired. */
    ghost predicate Valid()
      reads this
    {
      forall k: string ::
        && (k in storage <==> LastSet(history, k).Some? && !SeenExpired(history, k))
        && (k in storage ==> storage[k] == LastSet(history, k).value)
    }

    constructor ()
      ensures Valid() && history == [] && storage == map[]
    {
      storage := map[];
      history := [];
    }

    method Get(group: string, key: string, now: int) returns (r: Option<V>)
      requires Valid()
      modifies this
      ensures Valid() && history == old(history) + [Call.Get(group, key, now)]
      ensures r == Answer(old(history), group, key, now)
      ensures ClockRanForward(old(history), now) && ApartFrom(old(history), group) ==>
                r == Reference(old(history), group, key, now)
    {
      var groupKey := GroupKey(group, key);
      ghost var was := history;
      history := history + [Call.Get(group, key, now)];
      assert history[..|history| - 1] == was;
      if ClockRanForward(was, now) && ApartFrom(was, group) {
        AllRight(was, group);
      }
      if groupKey in storage {
        var value := storage[groupKey];
        if now > value.expiresAt {
          storage := storage - {groupKey};
          return None;
        }
        return Some(value.value);
      } else {
        return None;
      }
    }

    method Set(group: string, key: string, value: V, ttl: int, now: int)
      requires Valid()
      modifies this
      ensures Valid() && history == old(history) + [Call.Set(group, key, value, now, ttl)]
    {
      ghost var was := history;
      history := history + [Call.Set(group, key, value, now, ttl)];
      assert history[..|history| - 1] == was;
      var groupKey := GroupKey(group, key);
      storage := storage[groupKey := Entry(value, now + ttl)];
    }

    method Delete(group: string, key: string)
      requires Valid()
      modifies this
      ensures Valid() && history == old(history) + [Call.Delete(group, key)]
    {
      ghost var was := history;
      history := history + [Call.Delete(group, key)];
      assert history[..|history| - 1] == was;
      var groupKey := GroupKey(group, key);
      storage := storage - {groupKey};
    }
  }

  // ---------- Lazy deletion cannot be observed ----------

  /** With a forward clock a purged entry is one the caller could no longer get anyway. */
  lemma {:induction false} SeenExpiredIsExpired<V>(history: seq<Call<V>>, k: string, now: int)
    requires ClockRanForward(history, now)
    ensures SeenExpired(history, k) ==> LastSet(history, k).Some? && LastSet(history, k).value.expiresAt < now
    decreases |history|
  {
    if history != [] {
      var (before, last) := (history[..|history| - 1], history[|history| - 1]);
      SeenExpiredIsExpired(before, k, if last.Delete? then now else last.now);
    }
  }

  /** What SeenExpired says of the calls: an earlier Get of the key read past the entry's expiry, and the key was not
      set or deleted since. */
  ghost predicate SeenExpiredAt<V>(history: seq<Call<V>>, k: string, i: nat) {
    && i < |history| && history[i].Get? && CallKey(history[i]) == k
    && ReadPastExpiry(history[..i], k, history[i].now)
    && LastSet(history, k) == LastSet(history[..i], k)
    && forall j | i < j < |history| && CallKey(history[j]) == k :: history[j].Get?
  }

  lemma {:induction false} SeenExpiredMeans<V>(history: seq<Call<V>>, k: string)
    ensures SeenExpired(history, k) <==> exists i :: SeenExpiredAt(history, k, i)
  {
    if history != [] {
      var (before, last) := (history[..|history| - 1], history[|history| - 1]);
      SeenExpiredMeans(before, k);
      if i: nat :| SeenExpiredAt(before, k, i) {
        SeenEarlier(history, k, i);
      }
      if i: nat :| SeenExpiredAt(history, k, i) {
        if i < |before| {
          SeenEarlier(history, k, i);
        }
      }
      if CallKey(last) == k && last.Get? && ReadPastExpiry(before, k, last.now) {
        assert SeenExpiredAt(history, k, |before|);
      }
    }
  }

  /** One more call that neither sets nor deletes the key changes nothing about an earlier Get. */
  lemma SeenEarlier<V>(history: seq<Call<V>>, k: string, i: nat)
    requires i < |history| - 1
    ensures var (before, last) := (history[..|history| - 1], history[|history| - 1]);
            SeenExpiredAt(history, k, i) <==> SeenExpiredAt(before, k, i) && (CallKey(last) != k || last.Get?)
  {
    var (before, last) := (history[..|history| - 1], history[|history| - 1]);
    assert history[..i] == before[..i];
    assert forall j | 0 <= j < |before| :: history[j] == before[j];
    assert LastSet(history, k) == if last.Get? || CallKey(last) != k then LastSet(before, k)
                                  else if last.Delete? then None else Some(Entry(last.value, last.now + last.ttl));
  }

  // ---------- When the answers are right ----------

  /** Two pairs of different groups share a storage key exactly when one group is the other, a colon and more. */
  lemma KeysMeet(g: string, h: string)
    requires g != h
    ensures (exists k, l :: GroupKey(g, k) == GroupKey(h, l)) <==> !Apart(g, h)
  {
    if k, l :| GroupKey(g, k) == GroupKey(h, l) {
      PrefixOfKey(g, k, h, l);
    }
    if g + ":" <= h {
      SharedKey(g, h);
    }
    if h + ":" <= g {
      SharedKey(h, g);
    }
  }

  lemma PrefixOfKey(g: string, k: string, h: string, l: string)
    requires GroupKey(g, k) == GroupKey(h, l)
    ensures if |g| < |h| then g + ":" <= h else if |h| < |g| then h + ":" <= g else g == h && k == l
  {
    var s := GroupKey(g, k);
    assert s[..|g|] == g && s[|g|] == ':' && s[|g| + 1..] == k;
    assert s[..|h|] == h && s[|h|] == ':' && s[|h| + 1..] == l;
    if |g| < |h| {
      assert g + ":" == s[..|g| + 1] <= s[..|h|];
    } else if |h| < |g| {
      assert h + ":" == s[..|h| + 1] <= s[..|g|];
    }
  }

  /** The key of the shorter group that an empty key of the longer one shares. */
  lemma SharedKey(g: string, h: string)
    requires g + ":" <= h
    ensures GroupKey(g, h[|g| + 1..] + ":") == GroupKey(h, "")
  {
    assert h == g + ":" + h[|g| + 1..];
  }

  /** Groups that are apart keep their pairs apart. */
  lemma GroupKeyInjective(g: string, k: string, h: string, l: string)
    requires Apart(g, h) && GroupKey(g, k) == GroupKey(h, l)
    ensures g == h && k == l
  {
    PrefixOfKey(g, k, h, l);
  }

  lemma {:induction false} LastSetIsPerPair<V>(history: seq<Call<V>>, group: string, key: string)
    requires ApartFrom(history, group)
    ensures LastSet(history, GroupKey(group, key)) == LastSetOf(history, group, key)
  {
    if history != [] {
      var (before, last) := (history[..|history| - 1], history[|history| - 1]);
      LastSetIsPerPair(before, group, key);
      assert last in history;
      if CallKey(last) == GroupKey(group, key) {
        GroupKeyInjective(last.group, last.key, group, key);
      }
    }
  }

  /** With groups apart, an answer is wrong exactly when an earlier Get read past the expiry of an entry that the clock
      now says is still live. */
  lemma WrongExactlyWhenSeenExpired<V>(history: seq<Call<V>>, group: string, key: string, now: int)
    requires ApartFrom(history, group)
    ensures Answer(history, group, key, now) != Reference(history, group, key, now) <==>
              && LastSetOf(history, group, key).Some? && now <= LastSetOf(history, group, key).value.expiresAt
              && exists i :: SeenExpiredAt(history, GroupKey(group, key), i)
  {
    LastSetIsPerPair(history, group, key);
    SeenExpiredMeans(history, GroupKey(group, key));
  }

  ghost predicate OverGroups<V>(history: seq<Call<V>>, groups: set<string>) {
    forall c | c in history :: c.group in groups
  }

  ghost predicate RightFor<V>(history: seq<Call<V>>, group: string) {
    forall key, now | ClockRanForward(history, now) ::
      Answer(history, group, key, now) == Reference(history, group, key, now)
  }

  /** Over some groups and a forward clock, all answers after all histories are right exactly when the groups are
      pairwise apart. */
  lemma RightExactlyWhenApart<V(!new)>(groups: set<string>, value: V)
    ensures (forall g, h | g in groups && h in groups :: Apart(g, h)) <==>
            (forall history: seq<Call<V>>, g | OverGroups(history, groups) && g in groups :: RightFor(history, g))
  {
    if forall g, h | g in groups && h in groups :: Apart(g, h) {
      forall history: seq<Call<V>>, g | OverGroups(history, groups) && g in groups
        ensures RightFor(history, g)
      {
        AllRight(history, g);
      }
    } else {
      var g, h :| g in groups && h in groups && !Apart(g, h);
      WrongOnceNotApart(if g + ":" <= h then g else h, if g + ":" <= h then h else g, value);
    }
  }

  lemma AllRight<V>(history: seq<Call<V>>, group: string)
    requires ApartFrom(history, group)
    ensures RightFor(history, group)
  {
    forall key, now | ClockRanForward(history, now)
      ensures Answer(history, group, key, now) == Reference(history, group, key, now)
    {
      LastSetIsPerPair(history, group, key);
      SeenExpiredIsExpired(history, GroupKey(group, key), now);
    }
  }

  /** A value set in the longer group is found in the shorter one, where nothing was ever set. */
  lemma WrongOnceNotApart<V>(g: string, h: string, value: V)
    requires g + ":" <= h
    ensures var history := [Call.Set(h, "", value, 0, 0)];
            && Answer(history, g, h[|g| + 1..] + ":", 0) == Some(value)
            && Reference(history, g, h[|g| + 1..] + ":", 0) == None
            && !RightFor(history, g)
  {
    var history := [Call.Set(h, "", value, 0, 0)];
    var key := h[|g| + 1..] + ":";
    SharedKey(g, h);
    assert history[..|history| - 1] == [];
    assert LastSet(history, GroupKey(g, key)) == Some(Entry(value, 0));
    assert |h| > |g| && LastSetOf(history, g, key) == None;
    assert ClockRanForward(history, 0);
    assert Answer(history, g, key, 0) != Reference(history, g, key, 0);
  }

  /** A clock set back finds an entry gone that is still within its time to live. */
  lemma WrongOnceClockGoesBack()
    ensures var history: seq<Call<int>> := [Call.Set("g", "k", 7, 0, 10), Call.Get("g", "k", 11)];
            Answer(history, "g", "k", 5) == None && Reference(history, "g", "k", 5) == Some(7)
  {
    var history: seq<Call<int>> := [Call.Set("g", "k", 7, 0, 10), Call.Get("g", "k", 11)];
    var first := history[..1];
    assert history[..|history| - 1] == first;
    assert first[..|first| - 1] == [];
    assert LastSet(first, GroupKey("g", "k")) == Some(Entry(7, 10));
    assert LastSetOf(first, "g", "k") == Some(Entry(7, 10));
  }
}
