/** The app's services, each built on first use and dropped whenever the pool changes. */
module ServiceCache {
  import opened Options

  /** A test's stand-in, or something built: by which entry, as which object, on which pool, and from what. */
  datatype Service =
    | Double(id: nat)
    | Built(entry: nat, serial: nat, pool: Option<nat>, parts: seq<Option<Service>>)

  /** One call of an entry's build and what it answered; nothing when it answered null or threw. */
  datatype Attempt = Attempt(entry: nat, answer: Option<Service>)

  // ---------------------------------------------------------------- what one epoch leaves

  /** The services the entry's builds answered, in order; a build that answered null leaves none. */
  function Successes(since: seq<Attempt>, entry: nat): seq<Service> {
    if since == [] then []
    else
      var last := since[|since| - 1];
      Successes(since[..|since| - 1], entry)
      + if last.entry == entry && last.answer.Some? then [last.answer.value] else []
  }

  function Listed(value: Option<Service>): seq<Service> { if value.Some? then [value.value] else [] }

  /** What is cached is exactly what the entries' successful builds answered, at most one for each. */
  predicate CachedIn(since: seq<Attempt>, values: seq<Option<Service>>) {
    forall i :: 0 <= i < |values| ==> Successes(since, i) == Listed(values[i])
  }

  function Kept(values: seq<Option<Service>>, i: nat, answer: Option<Service>): seq<Option<Service>>
    requires i < |values|
  {
    if answer.Some? then values[i := answer] else values
  }

  lemma CachedAppend(since: seq<Attempt>, values: seq<Option<Service>>, i: nat, answer: Option<Service>)
    requires CachedIn(since, values) && i < |values| && values[i] == None
    ensures CachedIn(since + [Attempt(i, answer)], Kept(values, i, answer))
  {
    forall k | 0 <= k < |values| ensures Successes(since + [Attempt(i, answer)], k) == Listed(Kept(values, i, answer)[k]) {
      SuccessesAppend(since, Attempt(i, answer), k);
      assert Successes(since, k) == Listed(values[k]);
    }
  }

  lemma CachedIsTaken(since: seq<Attempt>, values: seq<Option<Service>>, i: nat)
    requires CachedIn(since, values) && i < |values| && values[i].Some?
    ensures Taken(since, values[i], i)
  {
    assert Successes(since, i) == [values[i].value];
    CachedWasBuilt(since, i, values[i].value);
  }

  /** A value is a stand-in, null, or what this entry built during the epoch. */
  predicate Taken(since: seq<Attempt>, value: Option<Service>, entry: nat) {
    value.Some? && value.value.Built? ==> Attempt(entry, value) in since
  }

  predicate TakenAll(since: seq<Attempt>, parts: seq<Option<Service>>, entries: seq<nat>) {
    |parts| <= |entries| && forall j :: 0 <= j < |parts| ==> Taken(since, parts[j], entries[j])
  }

  /** Built in this epoch: on its pool, after its start, and from parts that were themselves taken in it. */
  predicate GrownOn(uses: seq<seq<nat>>, pool: Option<nat>, mark: nat, made: nat, since: seq<Attempt>, a: Attempt) {
    && a.entry < |uses|
    && (a.answer.Some? ==>
          && a.answer.value.Built? && a.answer.value.entry == a.entry && a.answer.value.pool == pool
          && mark <= a.answer.value.serial < made
          && |a.answer.value.parts| == |uses[a.entry]|
          && TakenAll(since, a.answer.value.parts, uses[a.entry]))
  }

  predicate Grown(uses: seq<seq<nat>>, pool: Option<nat>, mark: nat, made: nat, since: seq<Attempt>) {
    forall k :: 0 <= k < |since| ==> GrownOn(uses, pool, mark, made, since[..k], since[k])
  }

  /** The value and everything in it was built on this pool by an object not older than the epoch. */
  predicate Current(s: Service, pool: Option<nat>, mark: nat)
    decreases s
  {
    s.Built? ==>
      && s.pool == pool && mark <= s.serial
      && forall j :: 0 <= j < |s.parts| ==> (s.parts[j].Some? ==> Current(s.parts[j].value, pool, mark))
  }

  /** Nothing that an epoch built holds anything from before it, however deep. */
  lemma {:induction false} AllCurrent(uses: seq<seq<nat>>, pool: Option<nat>, mark: nat, made: nat, since: seq<Attempt>, k: nat)
    requires Grown(uses, pool, mark, made, since) && k < |since| && since[k].answer.Some?
    ensures Current(since[k].answer.value, pool, mark)
    decreases k
  {
    var s := since[k].answer.value;
    assert GrownOn(uses, pool, mark, made, since[..k], since[k]);
    forall j | 0 <= j < |s.parts| && s.parts[j].Some? ensures Current(s.parts[j].value, pool, mark) {
      assert Taken(since[..k], s.parts[j], uses[since[k].entry][j]);
      if s.parts[j].value.Built? {
        var a := Attempt(uses[since[k].entry][j], s.parts[j]);
        var before := since[..k];
        assert a in before;
        var h :| 0 <= h < |before| && before[h] == a;
        assert since[h] == a;
        AllCurrent(uses, pool, mark, made, since, h);
      }
    }
  }

  lemma TakenIsCurrent(uses: seq<seq<nat>>, pool: Option<nat>, mark: nat, made: nat, since: seq<Attempt>, value: Option<Service>, entry: nat)
    requires Grown(uses, pool, mark, made, since) && Taken(since, value, entry) && value.Some?
    ensures Current(value.value, pool, mark)
  {
    if value.value.Built? {
      var k :| 0 <= k < |since| && since[k] == Attempt(entry, value);
      AllCurrent(uses, pool, mark, made, since, k);
    }
  }

  lemma GrownAppend(uses: seq<seq<nat>>, pool: Option<nat>, mark: nat, made: nat, more: nat, since: seq<Attempt>, a: Attempt)
    requires Grown(uses, pool, mark, made, since) && made <= more && GrownOn(uses, pool, mark, more, since, a)
    ensures Grown(uses, pool, mark, more, since + [a])
  {
    var longer := since + [a];
    forall k | 0 <= k < |longer| ensures GrownOn(uses, pool, mark, more, longer[..k], longer[k]) {
      assert longer[..k] == since[..k];
      if k < |since| { assert GrownOn(uses, pool, mark, made, since[..k], since[k]); }
      else { assert since[..k] == since; }
    }
  }

  lemma GrownLater(uses: seq<seq<nat>>, pool: Option<nat>, mark: nat, made: nat, more: nat, since: seq<Attempt>)
    requires Grown(uses, pool, mark, made, since) && made <= more
    ensures Grown(uses, pool, mark, more, since)
  {
    forall k | 0 <= k < |since| ensures GrownOn(uses, pool, mark, more, since[..k], since[k]) {
      assert GrownOn(uses, pool, mark, made, since[..k], since[k]);
    }
  }

  lemma TakenAllLater(since: seq<Attempt>, longer: seq<Attempt>, parts: seq<Option<Service>>, entries: seq<nat>)
    requires since <= longer && TakenAll(since, parts, entries)
    ensures TakenAll(longer, parts, entries)
  {
  }

  /** Each part is the stand-in of the entry it came from, or null, or the value that entry caches. */
  predicate PartsOf(values: seq<Option<Service>>, overrides: seq<Option<nat>>, parts: seq<Option<Service>>, entries: seq<nat>) {
    && |parts| <= |entries|
    && forall j :: 0 <= j < |parts| ==> PartOf(values, overrides, parts[j], entries[j])
  }

  predicate PartOf(values: seq<Option<Service>>, overrides: seq<Option<nat>>, part: Option<Service>, entry: nat) {
    && entry < |values| && entry < |overrides|
    && (overrides[entry].Some? ==> part == Some(Double(overrides[entry].value)))
    && (overrides[entry].None? && part.Some? ==> part == values[entry])
  }

  predicate LaterKept(before: seq<Option<Service>>, after: seq<Option<Service>>, i: nat) {
    |before| == |after| && forall k :: i <= k < |before| ==> after[k] == before[k]
  }

  /** What was cached stays cached. */
  predicate FilledKept(before: seq<Option<Service>>, after: seq<Option<Service>>) {
    |before| == |after| && forall k :: 0 <= k < |before| && before[k].Some? ==> after[k] == before[k]
  }

  lemma KeptTwice(before: seq<Option<Service>>, between: seq<Option<Service>>, after: seq<Option<Service>>, i: nat)
    requires LaterKept(before, between, i) && FilledKept(before, between)
    requires LaterKept(between, after, i) && FilledKept(between, after)
    ensures LaterKept(before, after, i) && FilledKept(before, after)
  {
  }

  lemma PartsLater(before: seq<Option<Service>>, after: seq<Option<Service>>, overrides: seq<Option<nat>>, parts: seq<Option<Service>>, entries: seq<nat>)
    requires FilledKept(before, after) && PartsOf(before, overrides, parts, entries)
    ensures PartsOf(after, overrides, parts, entries)
  {
    forall j | 0 <= j < |parts| ensures PartOf(after, overrides, parts[j], entries[j]) {
      assert PartOf(before, overrides, parts[j], entries[j]);
    }
  }

  lemma SuccessesAppend(since: seq<Attempt>, a: Attempt, entry: nat)
    ensures Successes(since + [a], entry)
         == Successes(since, entry) + if a.entry == entry && a.answer.Some? then [a.answer.value] else []
  {
    assert (since + [a])[..|since|] == since;
  }

  /** Every entry takes only entries declared before it, so the graph of services has no cycle. */
  predicate Acyclic(uses: seq<seq<nat>>) {
    forall i, j :: 0 <= i < |uses| && 0 <= j < |uses[i]| ==> uses[i][j] < i
  }

  /** The entries that applyOverrides reaches; the first five keep a stand-in when none is given, the rest lose it. */
  datatype Names = Names(roomStore: nat, userStore: nat, friendStore: nat, notificationPreferences: nat,
                         avatarStorage: nat, pushSubscriptions: nat, pushService: nat, liveKitCredentials: nat,
                         memberships: nat)

  /** In the order the source declares them. */
  predicate Distinct(n: Names, size: nat) {
    n.roomStore < n.userStore < n.friendStore < n.notificationPreferences < n.pushSubscriptions < n.pushService
      < n.avatarStorage < n.liveKitCredentials < n.memberships < size
  }

  /** A fake friend store also says whether it expires pending invitations. */
  datatype Overrides = Overrides(pool: Option<nat>, store: Option<nat>, users: Option<nat>,
                                 friends: Option<nat>, friendsExpire: bool, notifications: Option<nat>, avatars: Option<nat>, pushes: Option<nat>,
                                 push: Option<nat>, liveKitCredentials: Option<nat>, memberships: Option<nat>)

  function Keeping(given: Option<nat>, previous: Option<nat>): Option<nat> {
    if given.Some? then given else previous
  }

  /** What each entry's stand-in is after applyOverrides. */
  function Overridden(n: Names, o: Overrides, was: seq<Option<nat>>): (now: seq<Option<nat>>)
    requires Distinct(n, |was|)
    ensures |now| == |was|
  {
    seq(|was|, i requires 0 <= i < |was| =>
      if i == n.roomStore then Keeping(o.store, was[i])
      else if i == n.userStore then Keeping(o.users, was[i])
      else if i == n.friendStore then Keeping(o.friends, was[i])
      else if i == n.notificationPreferences then Keeping(o.notifications, was[i])
      else if i == n.avatarStorage then Keeping(o.avatars, was[i])
      else if i == n.pushSubscriptions then o.pushes
      else if i == n.pushService then o.push
      else if i == n.liveKitCredentials then o.liveKitCredentials
      else if i == n.memberships then o.memberships
      else was[i])
  }

  class ServiceRegistry {
    const uses: seq<seq<nat>>
    const names: Names
    var values: seq<Option<Service>>
    var overrides: seq<Option<nat>>
    var pool: Option<nat>
    var made: nat
    /** Whether the fake friend store expires invitations; none was given when missing. */
    var fakeFriendsExpireInvites: Option<bool>
    // Every build since everything was last dropped, and how many objects were built before that.
    ghost var since: seq<Attempt>
    ghost var mark: nat

    ghost predicate Shape()
      reads this`values, this`overrides
    {
      && Acyclic(uses) && Distinct(names, |uses|)
      && |values| == |uses| && |overrides| == |uses|
    }

    /** What is cached is exactly what the one successful build of this epoch answered. */
    ghost predicate Cached()
      reads this`values, this`overrides, this`since
      requires Shape()
    {
      CachedIn(since, values)
    }

    ghost predicate Valid()
      reads this
    {
      Shape() && Cached() && mark <= made && Grown(uses, pool, mark, made, since)
    }

    constructor (uses: seq<seq<nat>>, names: Names)
      requires Acyclic(uses) && Distinct(names, |uses|)
      ensures Valid() && pool == None && since == [] && fakeFriendsExpireInvites == None
      ensures this.uses == uses && this.names == names
      ensures forall i :: 0 <= i < |uses| ==> values[i] == None && overrides[i] == None
    {
      this.uses := uses;
      this.names := names;
      values := seq(|uses|, _ => None);
      overrides := seq(|uses|, _ => None);
      pool := None;
      made := 0;
      fakeFriendsExpireInvites := None;
      since := [];
      mark := 0;
    }

    /** Whatever is returned from here was built since the last drop, and so was everything in it. */
    lemma ReturnedIsCurrent(value: Option<Service>, entry: nat)
      requires Valid() && Taken(since, value, entry) && value.Some?
      ensures Current(value.value, pool, mark)
    {
      TakenIsCurrent(uses, pool, mark, made, since, value, entry);
    }

    lemma CachedIsCurrent(i: nat)
      requires Valid() && i < |uses| && values[i].Some?
      ensures Taken(since, values[i], i) && Current(values[i].value, pool, mark)
    {
      CachedIsTaken(since, values, i);
      ReturnedIsCurrent(values[i], i);
    }

    /** The next of the entries that `i` uses is taken, or throws. */
    method TakeNext(i: nat, parts: seq<Option<Service>>) returns (more: seq<Option<Service>>, threw: bool)
      requires Valid() && i < |uses| && |parts| < |uses[i]|
      requires TakenAll(since, parts, uses[i]) && PartsOf(values, overrides, parts, uses[i])
      modifies this`values, this`made, this`since
      ensures Valid() && old(since) <= since && old(made) <= made
      ensures |more| == |parts| + (if threw then 0 else 1)
      ensures TakenAll(since, more, uses[i]) && PartsOf(values, overrides, more, uses[i])
      ensures LaterKept(old(values), values, i) && FilledKept(old(values), values)
      decreases i, 0
    {
      var part;
      part, threw := Get(uses[i][|parts|]);
      TakenAllLater(old(since), since, parts, uses[i]);
      PartsLater(old(values), values, overrides, parts, uses[i]);
      more := if threw then parts else parts + [part];
    }

    /** What an entry takes to build: the values of the entries it uses, in order, as far as none throws. */
    method TakeParts(i: nat) returns (parts: seq<Option<Service>>, threw: bool)
      requires Valid() && i < |uses|
      modifies this`values, this`made, this`since
      ensures Valid() && old(since) <= since && old(made) <= made
      ensures !threw ==> |parts| == |uses[i]|
      ensures TakenAll(since, parts, uses[i]) && PartsOf(values, overrides, parts, uses[i])
      ensures LaterKept(old(values), values, i) && FilledKept(old(values), values)
      decreases i, 1
    {
      parts, threw := [], false;
      for j := 0 to |uses[i]|
        invariant Valid() && old(since) <= since && old(made) <= made
        invariant !threw && |parts| == j && TakenAll(since, parts, uses[i]) && PartsOf(values, overrides, parts, uses[i])
        invariant LaterKept(old(values), values, i) && FilledKept(old(values), values)
      {
        ghost var values0 := values;
        parts, threw := TakeNext(i, parts);
        KeptTwice(old(values), values0, values, i);
        if threw { return; }
      }
    }

    /** An entry's build: it takes what it uses, then throws, or answers null or a new service on the pool. */
    method Build(i: nat) returns (next: Option<Service>, threw: bool)
      requires Valid() && i < |uses|
      modifies this`values, this`made, this`since
      ensures Valid() && old(since) <= since && old(made) <= made
      ensures LaterKept(old(values), values, i) && FilledKept(old(values), values)
      ensures GrownOn(uses, pool, mark, made, since, Attempt(i, next))
      ensures threw ==> next == None
      ensures next.Some? ==> old(made) <= next.value.serial && PartsOf(values, overrides, next.value.parts, uses[i])
      decreases i, 2
    {
      var parts;
      parts, threw := TakeParts(i);
      next := None;
      if threw { return; }
      var throws: bool, answersNull: bool := *, *;
      if throws {
        threw := true;
      } else if !answersNull {
        next := Some(Built(i, made, pool, parts));
        GrownLater(uses, pool, mark, made, made + 1, since);
        made := made + 1;
      }
    }

    /**
     * A cached entry's value: the stand-in, else what was built, else a new build, which is kept unless it
     * answered null or threw. What throws is passed on, and what was built on the way stays.
     */
    method Get(i: nat) returns (value: Option<Service>, threw: bool)
      requires Valid() && i < |uses|
      modifies this`values, this`made, this`since
      ensures Valid() && old(since) <= since && old(made) <= made
      ensures LaterKept(old(values), values, i + 1) && FilledKept(old(values), values)
      ensures overrides[i].Some? ==> value == Some(Double(overrides[i].value))
      ensures overrides[i].None? ==> value == values[i]
      ensures overrides[i].Some? || old(values[i]).Some? ==> since == old(since) && values == old(values) && !threw
      ensures threw ==> value == None
      // a build is tried even where one answered null or threw before
      ensures overrides[i].None? && old(values[i]).None? ==>
                |old(since)| < |since| && since[|since| - 1] == Attempt(i, value)
      ensures Taken(since, value, i)
      ensures value.Some? ==> Current(value.value, pool, mark)
      decreases i, 3
    {
      if overrides[i].Some? {
        return Some(Double(overrides[i].value)), false;
      }
      if values[i].Some? {
        CachedIsCurrent(i);
        return values[i], false;
      }
      value, threw := Build(i);
      Remember(i, value);
    }

    method Remember(i: nat, value: Option<Service>)
      requires Valid() && i < |uses| && values[i] == None
      requires GrownOn(uses, pool, mark, made, since, Attempt(i, value))
      modifies this`values, this`since
      ensures Valid() && since == old(since) + [Attempt(i, value)] && values == Kept(old(values), i, value)
      ensures Taken(since, value, i) && (value.Some? ==> Current(value.value, pool, mark))
    {
      GrownAppend(uses, pool, mark, made, made, since, Attempt(i, value));
      CachedAppend(since, values, i, value);
      if value.Some? {
        values := values[i := value];
      }
      since := since + [Attempt(i, value)];
      assert since[|since| - 1] == Attempt(i, value);
      if value.Some? { ReturnedIsCurrent(value, i); }
    }

    /** A pooled entry's value: null while no pool is installed, unless a test set one. */
    method PooledGet(i: nat) returns (value: Option<Service>, threw: bool)
      requires Valid() && i < |uses|
      modifies this`values, this`made, this`since
      ensures Valid() && old(since) <= since
      ensures pool.None? && overrides[i].None? ==> value == None && values == old(values) && since == old(since) && !threw
      ensures pool.Some? && overrides[i].None? ==> value == values[i]
      ensures overrides[i].Some? ==> value == Some(Double(overrides[i].value)) && values == old(values)
      ensures value.Some? ==> Current(value.value, pool, mark)
    {
      if pool.Some? || overrides[i].Some? {
        value, threw := Get(i);
      } else {
        value, threw := None, false;
      }
    }

    /** The friend store while pending room invitations can expire: the fake decides, else whether there is a pool. */
    method InvitationStore() returns (value: Option<Service>, threw: bool)
      requires Valid()
      modifies this`values, this`made, this`since
      ensures Valid() && old(since) <= since
      ensures var expires := if fakeFriendsExpireInvites.Some? then fakeFriendsExpireInvites.value else pool.Some?;
              var i := names.friendStore;
              && (!expires ==> value == None && !threw && values == old(values) && since == old(since))
              && (expires && overrides[i].Some? ==> value == Some(Double(overrides[i].value)))
              && (expires && overrides[i].None? ==> value == values[i])
              && (value.Some? ==> Current(value.value, pool, mark))
    {
      var expires := if fakeFriendsExpireInvites.Some? then fakeFriendsExpireInvites.value else pool.Some?;
      value, threw := None, false;
      if expires { value, threw := Get(names.friendStore); }
    }

    /** Forgets everything that was built, so that a new epoch starts. */
    method DropBuilt()
      requires Shape()
      modifies this`values, this`since, this`mark
      ensures Valid() && since == [] && mark == made
      ensures forall i :: 0 <= i < |uses| ==> values[i] == None
    {
      for k := 0 to |values|
        invariant |values| == |uses|
        invariant forall i :: 0 <= i < k ==> values[i] == None
      {
        values := values[k := None];
      }
      since := [];
      mark := made;
    }

    /** Opens a pool: nothing built before is returned again. */
    method Connect(newPool: nat)
      requires Valid()
      modifies this`pool, this`values, this`since, this`mark
      ensures Valid() && pool == Some(newPool) && since == [] && mark == made
      ensures forall i :: 0 <= i < |uses| ==> values[i] == None
    {
      pool := Some(newPool);
      DropBuilt();
    }

    /** Uninstalls the pool and answers it, to be ended; nothing built on it is returned again. */
    method Close() returns (installed: Option<nat>)
      requires Valid()
      modifies this`pool, this`values, this`since, this`mark
      ensures Valid() && installed == old(pool) && pool == None && since == [] && mark == made
      ensures forall i :: 0 <= i < |uses| ==> values[i] == None
    {
      installed := pool;
      pool := None;
      DropBuilt();
    }

    /** The value if something built or set it, without building it. */
    function Peek(i: nat): Option<Service>
      reads this`values, this`overrides
      requires i < |values| && i < |overrides|
    {
      if overrides[i].Some? then Some(Double(overrides[i].value)) else values[i]
    }

    method SetWhenGiven(i: nat, given: Option<nat>)
      requires i < |overrides|
      modifies this`overrides
      ensures overrides == old(overrides)[i := Keeping(given, old(overrides)[i])]
    {
      if given.Some? {
        overrides := overrides[i := given];
      }
    }

    method SetStandIns(options: Overrides)
      requires Distinct(names, |overrides|)
      modifies this`overrides
      ensures overrides == Overridden(names, options, old(overrides))
    {
      ghost var was := overrides;
      SetWhenGiven(names.roomStore, options.store);
      SetWhenGiven(names.userStore, options.users);
      SetWhenGiven(names.friendStore, options.friends);
      SetWhenGiven(names.notificationPreferences, options.notifications);
      SetWhenGiven(names.avatarStorage, options.avatars);
      assert overrides == Updated(names, options, was);
      overrides := overrides[names.pushSubscriptions := options.pushes];
      overrides := overrides[names.pushService := options.push];
      overrides := overrides[names.liveKitCredentials := options.liveKitCredentials];
      overrides := overrides[names.memberships := options.memberships];
      UpdatesOverride(names, options, was);
    }

    method ApplyOverrides(options: Overrides) returns (roomStoreChanged: bool)
      requires Valid()
      modifies this`pool, this`overrides, this`fakeFriendsExpireInvites, this`values, this`since, this`mark
      ensures Valid() && since == [] && mark == made
      ensures fakeFriendsExpireInvites == if options.friends.Some? then Some(options.friendsExpire) else None
      ensures pool == Keeping(options.pool, old(pool))
      ensures overrides == Overridden(names, options, old(overrides))
      ensures forall i :: 0 <= i < |uses| ==> values[i] == None
      ensures roomStoreChanged <==>
        && options.store.Some?
        && (if old(overrides[names.roomStore]).Some? then old(overrides[names.roomStore]) != options.store
            else old(values[names.roomStore]) != Some(Double(options.store.value)))
    {
      if options.pool.Some? {
        pool := options.pool;
      }
      roomStoreChanged := options.store.Some? && Peek(names.roomStore) != Some(Double(options.store.value));
      SetStandIns(options);
      fakeFriendsExpireInvites := if options.friends.Some? then Some(options.friendsExpire) else None;
      DropBuilt();
    }
  }

  /** The stand-ins after those that stay were set, written as the updates they are. */
  function Updated(n: Names, o: Overrides, was: seq<Option<nat>>): (now: seq<Option<nat>>)
    requires Distinct(n, |was|)
    ensures |now| == |was|
  {
    var a := was[n.roomStore := Keeping(o.store, was[n.roomStore])];
    var b := a[n.userStore := Keeping(o.users, a[n.userStore])];
    var c := b[n.friendStore := Keeping(o.friends, b[n.friendStore])];
    var d := c[n.notificationPreferences := Keeping(o.notifications, c[n.notificationPreferences])];
    d[n.avatarStorage := Keeping(o.avatars, d[n.avatarStorage])]
  }

  lemma UpdatesOverride(n: Names, o: Overrides, was: seq<Option<nat>>)
    requires Distinct(n, |was|)
    ensures Updated(n, o, was)[n.pushSubscriptions := o.pushes][n.pushService := o.push]
              [n.liveKitCredentials := o.liveKitCredentials][n.memberships := o.memberships] == Overridden(n, o, was)
  {
    var u := Updated(n, o, was);
    var kept := {n.roomStore, n.userStore, n.friendStore, n.notificationPreferences, n.avatarStorage};
    assert forall i :: 0 <= i < |was| && i !in kept ==> u[i] == was[i];
    assert u[n.roomStore] == Keeping(o.store, was[n.roomStore]);
    assert u[n.userStore] == Keeping(o.users, was[n.userStore]);
    assert u[n.friendStore] == Keeping(o.friends, was[n.friendStore]);
    assert u[n.notificationPreferences] == Keeping(o.notifications, was[n.notificationPreferences]);
  }

  predicate Succeeded(since: seq<Attempt>, k: nat, entry: nat) {
    k < |since| && since[k].entry == entry && since[k].answer.Some?
  }

  lemma {:induction false} SuccessesCount(since: seq<Attempt>, entry: nat, k: nat)
    requires Succeeded(since, k, entry)
    ensures |Successes(since, entry)| >= 1
    ensures forall h: nat :: h < k && Succeeded(since, h, entry) ==> |Successes(since, entry)| >= 2
  {
    var n := |since| - 1;
    var init := since[..n];
    if k < n {
      assert Succeeded(init, k, entry);
      SuccessesCount(init, entry, k);
      assert forall h: nat :: h < k && Succeeded(since, h, entry) ==> Succeeded(init, h, entry);
    } else {
      forall h: nat | h < k && Succeeded(since, h, entry) ensures |Successes(since, entry)| >= 2 {
        assert Succeeded(init, h, entry);
        SuccessesCount(init, entry, h);
      }
    }
  }

  /** In one epoch no two builds of an entry succeed. */
  lemma BuiltAtMostOnce(since: seq<Attempt>, values: seq<Option<Service>>, entry: nat, h: nat, k: nat)
    requires CachedIn(since, values) && entry < |values|
    requires Succeeded(since, h, entry) && Succeeded(since, k, entry)
    ensures h == k
  {
    assert |Successes(since, entry)| <= 1;
    SuccessesCount(since, entry, h);
    SuccessesCount(since, entry, k);
  }

  lemma {:induction false} CachedWasBuilt(since: seq<Attempt>, entry: nat, s: Service)
    requires s in Successes(since, entry)
    ensures Attempt(entry, Some(s)) in since
  {
    if since != [] {
      var init := since[..|since| - 1];
      if s in Successes(init, entry) {
        CachedWasBuilt(init, entry, s);
      } else {
        assert since[|since| - 1] == Attempt(entry, Some(s));
      }
    }
  }
}
