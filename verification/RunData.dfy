/** The list loaders over the shared cache (`rspLoader.go`, `namespaceLoader.go`) and the rule
    table derived from their lists (`runData.go`), all under `shield/pkg/shield`. */
module RunData {
  import opened Text
  import opened Cache
  import opened Pattern
  import opened RuleTable

  /** JSON marshalling of a list. */
  datatype Codec<!T(!new)> = Codec(encode: seq<T> -> string, decode: string -> Option<seq<T>>) {
    ghost predicate RoundTrips() { forall xs :: encode(xs) != "" && decode(encode(xs)) == Some(xs) }
  }

  /** One answer of the API server to a list request; None is an error. */
  type Api<T> = Option<seq<T>>

  /** Everything ever stored under `key` is a non-empty list that lives exactly `ttl`. */
  ghost predicate Stamped<T(!new)>(log: seq<Event<string>>, key: string, ttl: int, codec: Codec<T>) {
    forall i :: 0 <= i < |log| && log[i].name == key && log[i].SetEvent? ==>
                  log[i].obj.expired == log[i].obj.created + ttl && Listed(codec, log[i].obj.raw)
  }

  ghost predicate Listed<T(!new)>(codec: Codec<T>, raw: string) {
    raw != "" && codec.decode(raw).Some? && codec.decode(raw).value != []
  }

  /** Only entries under `key` were added. */
  ghost predicate Grew(before: seq<Event<string>>, after: seq<Event<string>>, key: string) {
    before <= after && forall i :: |before| <= i < |after| ==> after[i].name == key
  }

  lemma OthersStayStamped<T(!new)>(before: seq<Event<string>>, after: seq<Event<string>>, grown: string, key: string,
                            ttl: int, codec: Codec<T>)
    requires Grew(before, after, grown) && grown != key && Stamped(before, key, ttl, codec)
    ensures Stamped(after, key, ttl, codec)
  {
    forall i | 0 <= i < |after| && after[i].name == key && after[i].SetEvent?
      ensures after[i].obj.expired == after[i].obj.created + ttl && Listed(codec, after[i].obj.raw)
    {
      assert i < |before| && after[i] == before[i];
    }
  }

  lemma AbsentStays(log: seq<Event<string>>, key: string, now: int)
    ensures LogGet(log, key, now) == None ==> forall later :: now <= later ==> LogGet(log, key, later) == None
  {
    hide LogEntry;
  }

  lemma OthersStayAbsent(before: seq<Event<string>>, after: seq<Event<string>>, grown: string, key: string, now: int)
    requires Grew(before, after, grown) && grown != key
    ensures LogGet(before, key, now) == None ==> forall later :: now <= later ==> LogGet(after, key, later) == None
  {
    if LogGet(before, key, now) == None {
      var more := after[|before|..];
      assert after == before + more;
      forall later | now <= later ensures LogGet(after, key, later) == None {
        AbsentUntilSet(before, more, key, now, later);
      }
    }
  }

  /** `list` was stored under `key` at most `ttl` before `now`. */
  ghost predicate StoredRecently<T(!new)>(log: seq<Event<string>>, key: string, ttl: int, codec: Codec<T>, now: int,
                                   list: seq<T>) {
    exists i :: 0 <= i < |log| && log[i].name == key && log[i].SetEvent? &&
                codec.decode(log[i].obj.raw) == Some(list) && now <= log[i].obj.created + ttl
  }

  lemma {:induction false} EntryWasSet(log: seq<Event<string>>, key: string) returns (i: nat)
    requires LogEntry(log, key).Some?
    ensures i < |log| && log[i] == SetEvent(key, LogEntry(log, key).value)
  {
    i := |log| - 1;
    if log[i].name != key { i := EntryWasSet(log[..i], key); }
  }

  /** What the cache answers for a stamped key is a list, and not an old one. */
  lemma AnswerIsRecent<T(!new)>(log: seq<Event<string>>, key: string, ttl: int, codec: Codec<T>, now: int)
    requires Stamped(log, key, ttl, codec) && LogGet(log, key, now).Some?
    ensures var raw := LogGet(log, key, now).value;
            Listed(codec, raw) && StoredRecently(log, key, ttl, codec, now, codec.decode(raw).value)
  {
    hide LogEntry;
    var i := EntryWasSet(log, key);
    assert log[i].obj.raw == LogGet(log, key, now).value;
  }

  /** What a list read came from. */
  datatype Source = Kept | FromApi | FromCache | Failed | Nothing

  function SourceOf<T>(cached: Option<string>, doK8sApiCall: bool, api: Api<T>): Source {
    if cached.Some? then FromCache else if !doK8sApiCall then Nothing else if api.None? then Failed else FromApi
  }

  /** Both loaders: the profiles under "RSPLoader/list" for 60 seconds, the namespaces under
      "NamespaceLoader/list" for 30. */
  class ListLoader<T(!new)> {
    const key: string
    const ttl: int
    const codec: Codec<T>
    const cache: Cache<string>
    var data: seq<T>

    ghost predicate Valid()
      reads this, cache, cache.clock
    {
      cache.Valid() && codec.RoundTrips() && Stamped(cache.log, key, ttl, codec)
    }

    constructor (key: string, ttl: int, codec: Codec<T>, cache: Cache<string>)
      requires cache.Valid() && codec.RoundTrips() && Stamped(cache.log, key, ttl, codec)
      ensures Valid() && data == [] && this.cache == cache && this.key == key && this.ttl == ttl && this.codec == codec
    {
      this.key, this.ttl, this.codec, this.cache, data := key, ttl, codec, cache, [];
    }

    /** `Load`: a live cache entry wins; without one the API is asked, if allowed; an API error
        leaves the list alone.  A list out of the cache was stored there at most `ttl` ago. */
    method Load(doK8sApiCall: bool, api: Api<T>) returns (reloaded: bool, ghost src: Source)
      requires Valid()
      modifies this`data, cache, cache.clock
      ensures Valid() && old(cache.clock.last) <= cache.clock.last
      ensures reloaded <==> src == FromApi
      ensures exists now :: old(cache.clock.last) <= now <= cache.clock.last &&
                            src == SourceOf(LogGet(old(cache.log), key, now), doK8sApiCall, api)
      ensures src == FromApi ==> data == api.value
      ensures src == FromCache ==> data != [] && StoredRecently(cache.log, key, ttl, codec, cache.clock.last, data)
      ensures src == Failed ==> data == old(data)
      ensures src == Nothing ==> data == []
      ensures cache.log == if src == FromApi && data != []
                           then var now := cache.clock.last;
                                old(cache.log) + [SetEvent(key, CachedObject(codec.encode(data), now, now + ttl))]
                           else old(cache.log)
    {
      hide Agrees, LogGet, StoredRecently;
      var got := cache.Get(key);
      if got.Some? { AnswerIsRecent(cache.log, key, ttl, codec, cache.clock.last); }
      var cached := if got.Some? then got.value else "";
      reloaded := false;
      if cached == "" && doK8sApiCall {
        if api.None? { return false, Failed; }
        reloaded, src := true, FromApi;
        if |api.value| > 0 { cache.Set(key, codec.encode(api.value), Some(ttl)); }
        data := api.value;
      } else if cached != "" {
        var list := codec.decode(cached);
        if list.None? { return false, Failed; }
        src := FromCache;
        data := list.value;
      } else {
        src := Nothing;
        data := [];
      }
    }

    /** `GetData`: a non-empty list is kept for the life of the loader. */
    method GetData(doK8sApiCall: bool, api: Api<T>) returns (list: seq<T>, reloaded: bool, ghost src: Source)
      requires Valid()
      modifies this`data, cache, cache.clock
      ensures Valid() && list == data && old(cache.clock.last) <= cache.clock.last
      ensures Grew(old(cache.log), cache.log, key) && (src != FromApi || data == [] ==> cache.log == old(cache.log))
      ensures reloaded <==> src == FromApi
      ensures if old(data) != [] then src == Kept else
                exists now :: old(cache.clock.last) <= now <= cache.clock.last &&
                              src == SourceOf(LogGet(old(cache.log), key, now), doK8sApiCall, api)
      ensures src == FromApi ==> data == api.value
      ensures src == FromCache ==> data != [] && StoredRecently(cache.log, key, ttl, codec, cache.clock.last, data)
      ensures src == Kept || src == Failed ==> data == old(data)
      ensures src == Nothing ==> data == []
    {
      hide Agrees, LogGet, StoredRecently, Stamped;
      reloaded, src := false, Kept;
      if |data| == 0 { reloaded, src := Load(doK8sApiCall, api); }
      list := data;
    }

    method ClearCache()
      requires Valid()
      modifies cache
      ensures Valid() && cache.log == old(cache.log) + [UnsetEvent(key)]
      ensures LogGet(cache.log, key, cache.clock.last) == None
    {
      cache.Unset(key);
      LogEntryAfter(old(cache.log), UnsetEvent(key), key);
    }
  }

  // ---- The derived table ----

  /** The table of the given lists, or nothing when it is empty or targets no namespace. */
  function Derived(lm: LabelMatcher, profiles: seq<Profile>, nss: seq<Namespace>, common: seq<Rule>,
                   shieldNs: string): Option<RuleTable> {
    var t := TableOf(lm, profiles, nss, common, shieldNs);
    if IsEmpty(t) || IsTargetEmpty(t) then None else Some(t)
  }

  /** Profiles that target something without any known namespace still do with some. */
  lemma TargetsGrow(lm: LabelMatcher, profiles: seq<Profile>, nss: seq<Namespace>, common: seq<Rule>, shieldNs: string)
    requires Derived(lm, profiles, [], common, shieldNs).Some?
    ensures Derived(lm, profiles, nss, common, shieldNs).Some?
  {
    var t, t' := TableOf(lm, profiles, [], common, shieldNs), TableOf(lm, profiles, nss, common, shieldNs);
    var i :| 0 <= i < |t.items| && t.items[i].targets != [];
    assert t.items[i].targets == Targets(lm, profiles[i], [], shieldNs);
    assert t'.items[i].targets == Targets(lm, profiles[i], nss, shieldNs);
    assert Targets(lm, profiles[i], nss, shieldNs) == Targets(lm, profiles[i], [], shieldNs);
  }

  class RunData {
    const rsp: ListLoader<Profile>
    const ns: ListLoader<Namespace>
    const lm: LabelMatcher
    const common: seq<Rule>
    const shieldNs: string
    var rspList: seq<Profile>
    var nsList: seq<Namespace>
    var ruleTable: Option<RuleTable>

    ghost predicate Wired()
      reads rsp, ns, rsp.cache, rsp.cache.clock, ns.cache, ns.cache.clock
    {
      && rsp.cache == ns.cache && (rsp as object) != (ns as object) && rsp.key != ns.key
      && rsp.Valid() && ns.Valid()
    }

    /** The lists are the loaders' lists, and the table is the one they stand for. */
    ghost predicate Consistent()
      reads this, rsp, ns
    {
      rspList == rsp.data && nsList == ns.data && ruleTable == Derived(lm, rspList, nsList, common, shieldNs)
    }

    /** The table knows no namespace although the list now does. */
    ghost predicate Behind()
      reads this, rsp, ns
    {
      rspList == rsp.data && nsList == ns.data && nsList != [] && ruleTable.Some? &&
          ruleTable == Derived(lm, rspList, [], common, shieldNs)
    }

    /** A handler's data with fresh loaders over the shared cache. */
    constructor (lm: LabelMatcher, common: seq<Rule>, shieldNs: string, cache: Cache<string>, pc: Codec<Profile>,
                 nc: Codec<Namespace>)
      requires cache.Valid() && pc.RoundTrips() && nc.RoundTrips()
      requires Stamped(cache.log, "RSPLoader/list", 60, pc) && Stamped(cache.log, "NamespaceLoader/list", 30, nc)
      ensures Wired() && rsp.cache == cache && fresh(rsp) && fresh(ns) && rsp.data == [] && ns.data == []
      ensures rsp.key == "RSPLoader/list" && ns.key == "NamespaceLoader/list"
      ensures this.lm == lm && this.common == common && this.shieldNs == shieldNs
      ensures rspList == [] && nsList == [] && ruleTable == None
    {
      this.lm, this.common, this.shieldNs := lm, common, shieldNs;
      rsp := new ListLoader<Profile>("RSPLoader/list", 60, pc, cache);
      ns := new ListLoader<Namespace>("NamespaceLoader/list", 30, nc, cache);
      rspList, nsList, ruleTable := [], [], None;
    }

    /** `setRuleTable`: an empty table, or one without targets, is not stored. */
    method SetRuleTable() returns (updated: bool)
      modifies this`ruleTable
      ensures updated <==> Derived(lm, rspList, nsList, common, shieldNs).Some?
      ensures ruleTable == if updated then Derived(lm, rspList, nsList, common, shieldNs) else old(ruleTable)
    {
      hide TableOf, IsTargetEmpty;
      var t := NewRuleTable(lm, rspList, nsList, common, shieldNs);
      var noTarget := CountIsZero(t);
      updated := !IsEmpty(t) && !noTarget;
      if updated { ruleTable := Some(t); }
    }

    /** `Init` reads the cache only. */
    method Init()
      requires Wired()
      modifies this, rsp, ns, rsp.cache, rsp.cache.clock
      ensures Wired() && rspList == rsp.data && nsList == ns.data
      ensures var derived := Derived(lm, rspList, nsList, common, shieldNs);
              ruleTable == if derived.Some? then derived else old(ruleTable)
      ensures old(ruleTable) == None ==> Consistent()
      ensures nsList == [] ==> LogGet(rsp.cache.log, ns.key, rsp.cache.clock.last) == None
      ensures rsp.cache.log == old(rsp.cache.log) && old(rsp.cache.clock.last) <= rsp.cache.clock.last
      ensures old(rsp.data) == [] && old(LogGet(rsp.cache.log, rsp.key, rsp.cache.clock.last)) == None ==> rspList == []
      ensures old(ns.data) == [] && old(LogGet(rsp.cache.log, ns.key, rsp.cache.clock.last)) == None ==> nsList == []
    {
      hide Derived, Agrees, LogEntry, Stamped, StoredRecently;
      var reloaded;
      ghost var src;
      rspList, reloaded, src := rsp.GetData(false, None);
      OthersStayStamped(old(rsp.cache.log), rsp.cache.log, rsp.key, ns.key, ns.ttl, ns.codec);
      ghost var mid := rsp.cache.log;
      nsList, reloaded, src := ns.GetData(false, None);
      OthersStayStamped(mid, rsp.cache.log, ns.key, rsp.key, rsp.ttl, rsp.codec);
      var inited := SetRuleTable();
    }

    /** The first half of `GetRuleTable`: both lists are brought up to date. */
    method RefreshLists(apiRsp: Api<Profile>, apiNs: Api<Namespace>)
      returns (reloaded: bool, ghost rspSrc: Source, ghost nsSrc: Source)
      requires Wired() && rspList == rsp.data && nsList == ns.data
      modifies this`rspList, this`nsList, rsp, ns, rsp.cache, rsp.cache.clock
      ensures Wired() && rspList == rsp.data && nsList == ns.data
      ensures reloaded <==> rspSrc == FromApi || nsSrc == FromApi
      ensures rspSrc == Kept <==> old(rspList) != []
      ensures nsSrc == Kept <==> old(nsList) != []
      ensures rspSrc in {Kept, Failed} ==> rspList == old(rspList)
      ensures nsSrc in {Kept, Failed} ==> nsList == old(nsList)
      ensures rspSrc in {Kept, Failed, FromApi, FromCache} && nsSrc in {Kept, Failed, FromApi, FromCache}
      ensures nsSrc == FromCache ==> nsList != []
      ensures rspSrc == FromApi ==> apiRsp.Some? && rspList == apiRsp.value
      ensures nsSrc == FromApi ==> apiNs.Some? && nsList == apiNs.value
      ensures old(LogGet(rsp.cache.log, rsp.key, rsp.cache.clock.last)) == None ==> rspSrc != FromCache
      ensures old(LogGet(rsp.cache.log, ns.key, rsp.cache.clock.last)) == None ==> nsSrc != FromCache
      ensures rspSrc == Failed ==> apiRsp.None?
      ensures nsSrc == Failed ==> apiNs.None?
      ensures old(LogGet(rsp.cache.log, rsp.key, rsp.cache.clock.last)) == None && rspList == [] ==>
                LogGet(rsp.cache.log, rsp.key, rsp.cache.clock.last) == None
      ensures old(LogGet(rsp.cache.log, ns.key, rsp.cache.clock.last)) == None && nsList == [] ==>
                LogGet(rsp.cache.log, ns.key, rsp.cache.clock.last) == None
    {
      hide Agrees, LogGet, Derived, Stamped, StoredRecently, Grew;
      AbsentStays(rsp.cache.log, rsp.key, rsp.cache.clock.last);
      var tmpRsp, rspReloaded;
      tmpRsp, rspReloaded, rspSrc := rsp.GetData(true, apiRsp);
      OthersStayStamped(old(rsp.cache.log), rsp.cache.log, rsp.key, ns.key, ns.ttl, ns.codec);
      ghost var mid := rsp.cache.log;
      OthersStayAbsent(old(rsp.cache.log), mid, rsp.key, ns.key, old(rsp.cache.clock.last));
      ghost var later := rsp.cache.clock.last;
      var tmpNs, nsReloaded;
      tmpNs, nsReloaded, nsSrc := ns.GetData(true, apiNs);
      OthersStayStamped(mid, rsp.cache.log, ns.key, rsp.key, rsp.ttl, rsp.codec);
      OthersStayAbsent(mid, rsp.cache.log, ns.key, rsp.key, later);
      if rspReloaded || |tmpRsp| > 0 { rspList := tmpRsp; }
      if nsReloaded || |tmpNs| > 0 { nsList := tmpNs; }
      reloaded := rspReloaded || nsReloaded;
    }

    /** The table is nil, empty or without targets. */
    method Unusable() returns (b: bool)
      ensures b <==> ruleTable.None? || IsEmpty(ruleTable.value) || IsTargetEmpty(ruleTable.value)
    {
      if ruleTable.None? { return true; }
      var noTarget := CountIsZero(ruleTable.value);
      b := IsEmpty(ruleTable.value) || noTarget;
    }

    /** `GetRuleTable`, any number of times.  The answer is the table of the current lists, after
        reloads, API errors and partial answers alike, with one exception: when the namespaces
        were not known before and now come out of the cache, filled there by another handler, an
        existing table is not rebuilt, then or later. */
    method GetRuleTable(apiRsp: Api<Profile>, apiNs: Api<Namespace>) returns (r: Option<RuleTable>, ghost nsSrc: Source)
      requires Wired() && (Consistent() || Behind())
      modifies this, rsp, ns, rsp.cache, rsp.cache.clock
      ensures Wired() && r == ruleTable
      ensures if old(Consistent()) && !(nsSrc == FromCache && old(ruleTable).Some?) then Consistent()
              else Behind() && r == old(ruleTable) && rspList == old(rspList)
      ensures old(nsList) != [] || old(LogGet(rsp.cache.log, ns.key, rsp.cache.clock.last)) == None ==>
                nsSrc != FromCache
      ensures old(rspList) != [] ==> rspList == old(rspList)
      ensures old(nsList) != [] ==> nsList == old(nsList)
      ensures old(rspList) == [] && old(LogGet(rsp.cache.log, rsp.key, rsp.cache.clock.last)) == None ==>
                rspList == if apiRsp.Some? then apiRsp.value else []
      ensures old(nsList) == [] && old(LogGet(rsp.cache.log, ns.key, rsp.cache.clock.last)) == None ==>
                nsList == if apiNs.Some? then apiNs.value else []
      ensures old(LogGet(rsp.cache.log, rsp.key, rsp.cache.clock.last)) == None && rspList == [] ==>
                LogGet(rsp.cache.log, rsp.key, rsp.cache.clock.last) == None
      ensures old(LogGet(rsp.cache.log, ns.key, rsp.cache.clock.last)) == None && nsList == [] ==>
                LogGet(rsp.cache.log, ns.key, rsp.cache.clock.last) == None
    {
      hide LogGet, Derived;
      hide Wired;
      DerivedUsable(lm, rspList, nsList, common, shieldNs);
      DerivedUsable(lm, rspList, [], common, shieldNs);
      ghost var rspSrc;
      var reloaded;
      reloaded, rspSrc, nsSrc := RefreshLists(apiRsp, apiNs);
      assert ruleTable.Some? ==> rspSrc == Kept;
      if old(nsList) == [] && ruleTable.Some? { TargetsGrow(lm, rspList, nsList, common, shieldNs); }
      var unusable := Unusable();
      if unusable || reloaded { var inited := SetRuleTable(); }
      r := ruleTable;
    }

    /** `resetRuleTableCache`: afterwards both lists read as absent, so a new handler asks the API. */
    method ResetRuleTableCache()
      requires Wired()
      modifies rsp.cache
      ensures Wired()
      ensures LogGet(rsp.cache.log, rsp.key, rsp.cache.clock.last) == None &&
              LogGet(rsp.cache.log, ns.key, rsp.cache.clock.last) == None
    {
      hide Agrees;
      rsp.ClearCache();
      ghost var mid := rsp.cache.log;
      ns.ClearCache();
      LogEntryAfter(mid, UnsetEvent(ns.key), rsp.key);
    }
  }

  lemma DerivedUsable(lm: LabelMatcher, profiles: seq<Profile>, nss: seq<Namespace>, common: seq<Rule>,
                      shieldNs: string)
    ensures var t := Derived(lm, profiles, nss, common, shieldNs);
            t.Some? ==> profiles != [] && !IsEmpty(t.value) && !IsTargetEmpty(t.value)
  {}

  /** The exception really is one: with the same profiles, tables over no and over some
      namespaces agree exactly when no selecting profile finds a namespace. */
  lemma StaleExactly(lm: LabelMatcher, profiles: seq<Profile>, nss: seq<Namespace>, common: seq<Rule>, shieldNs: string)
    requires Derived(lm, profiles, [], common, shieldNs).Some?
    ensures Derived(lm, profiles, [], common, shieldNs) == Derived(lm, profiles, nss, common, shieldNs) <==>
            forall i :: 0 <= i < |profiles| ==>
                  Targets(lm, profiles[i], nss, shieldNs) == Targets(lm, profiles[i], [], shieldNs)
  {
    TargetsGrow(lm, profiles, nss, common, shieldNs);
    var t, t' := TableOf(lm, profiles, [], common, shieldNs), TableOf(lm, profiles, nss, common, shieldNs);
    if forall i :: 0 <= i < |profiles| ==>
          Targets(lm, profiles[i], nss, shieldNs) == Targets(lm, profiles[i], [], shieldNs) {
      SameTargetsSameTable(lm, profiles, nss, common, shieldNs);
    } else {
      var i :| 0 <= i < |profiles| && Targets(lm, profiles[i], nss, shieldNs) != Targets(lm, profiles[i], [], shieldNs);
      assert t.items[i] != t'.items[i];
    }
  }

  /** A profile of the shield's namespace that selects namespace "x", beside one that targets its
      own: the table built without namespaces lags behind as soon as "x" is known. */
  lemma LaggingTable(lm: LabelMatcher, x: Namespace, common: seq<Rule>, shieldNs: string)
    requires x.name == "x" && shieldNs != "y"
    ensures var ps := [Profile("p", shieldNs, Some(Selector(None, ["x"], [])), [], [], []),
                       Profile("q", "y", None, [], [], [])];
            && Derived(lm, ps, [], common, shieldNs).Some?
            && Derived(lm, ps, [], common, shieldNs) != Derived(lm, ps, [x], common, shieldNs)
  {
    hide TableOf, Targets;
    var p := Profile("p", shieldNs, Some(Selector(None, ["x"], [])), [], [], []);
    var q := Profile("q", "y", None, [], [], []);
    var ps := [p, q];
    LaggingTargets(lm, x, shieldNs, p, q);
    var t := TableOf(lm, ps, [], common, shieldNs);
    assert t.items[1].targets == ["y"];
    StaleExactly(lm, ps, [x], common, shieldNs);
    assert Targets(lm, ps[0], [x], shieldNs) != Targets(lm, ps[0], [], shieldNs);
  }

  lemma LaggingTargets(lm: LabelMatcher, x: Namespace, shieldNs: string, p: Profile, q: Profile)
    requires x.name == "x" && p.namespace == shieldNs && p.selector == Some(Selector(None, ["x"], [])) &&
             q.namespace == "y" && q.selector == None
    ensures Targets(lm, p, [], shieldNs) == [] && Targets(lm, p, [x], shieldNs) == ["x"] &&
            Targets(lm, q, [], shieldNs) == ["y"]
  {
    hide MatchPattern, MatchNamespaceName;
    NameSelected(Selector(None, ["x"], []));
    var selected := ns => MatchNamespace(lm, Selector(None, ["x"], []), ns);
    assert Filter([], selected) == [] && [x][..0] == [];
    assert Filter([x], selected) == [x];
  }

  lemma NameSelected(s: Selector)
    requires s.included == ["x"] && s.excluded == []
    ensures MatchNamespaceName(s, "x")
  {
    assert TrimSpace("x") == "x";
    assert MatchPattern(s.included[0], "x");
  }

  lemma {:induction false} SameTargetsSameTable(lm: LabelMatcher, profiles: seq<Profile>, nss: seq<Namespace>,
                                                common: seq<Rule>, shieldNs: string)
    requires forall i :: 0 <= i < |profiles| ==>
               Targets(lm, profiles[i], nss, shieldNs) == Targets(lm, profiles[i], [], shieldNs)
    ensures TableOf(lm, profiles, nss, common, shieldNs) == TableOf(lm, profiles, [], common, shieldNs)
  {
    if profiles != [] { SameTargetsSameTable(lm, profiles[..|profiles| - 1], nss, common, shieldNs); }
  }
}
