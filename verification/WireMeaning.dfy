// What the translation of a JSON tree means, by the keys and the names themselves (wire.ts).
module WireMeaning {
  import opened Common
  import opened Harness
  import opened HarnessNames
  import opened Wire

  // ----- merging -----

  /** Keys are distinct, as in a JSON object. */
  ghost predicate Proper(v: Json) {
    match v
    case Arr(items) => forall i | 0 <= i < |items| :: Proper(items[i])
    case Obj(entries) =>
      && (forall i, k | 0 <= i < k < |entries| :: entries[i].key != entries[k].key)
      && (forall i | 0 <= i < |entries| :: Proper(entries[i].value))
    case _ => true
  }

  /** The value under a path of keys. */
  ghost function At(v: Json, path: seq<string>): Option<Json>
    decreases |path|
  {
    if path == [] then Some(v)
    else if v.Obj? && Has(v.entries, path[0]) then At(Get(v.entries, path[0]), path[1..])
    else None
  }

  /** What is configured under a path: anything but a record of more, or null. */
  ghost function Setting(v: Json, path: seq<string>): Option<Json> {
    var x := At(v, path);
    if x.Some? && !x.value.Null? && !x.value.Obj? then x else None
  }

  /** Under the path there are two values of which only one could be kept. */
  ghost predicate Clash(a: Json, b: Json, path: seq<string>) {
    var x, y := At(a, path), At(b, path);
    && x.Some? && y.Some? && !x.value.Null? && !y.value.Null?
    && !(x.value.Obj? && y.value.Obj?)
    && x.value != y.value
  }

  lemma HasAt(entries: seq<Entry>, i: nat)
    requires i < |entries| && forall i, k | 0 <= i < k < |entries| :: entries[i].key != entries[k].key
    ensures IndexOf(entries, entries[i].key) == i
  {
  }

  lemma HasMeans(entries: seq<Entry>, key: string)
    ensures Has(entries, key) <==> exists i :: 0 <= i < |entries| && entries[i].key == key
  {
  }

  lemma WithGet(entries: seq<Entry>, key: string, value: Json, k: string)
    ensures Has(With(entries, key, value), k) <==> Has(entries, k) || k == key
    ensures Has(With(entries, key, value), k) ==>
              Get(With(entries, key, value), k) == if k == key then value else Get(entries, k)
  {
    var after := With(entries, key, value);
    var i := IndexOf(after, k);
    HasMeans(entries, k);
    HasMeans(after, k);
    if Has(entries, key) {
      assert forall j | 0 <= j < |entries| :: after[j].key == entries[j].key;
      IndexByKeys(entries, after, k);
    } else {
      assert forall j | 0 <= j < |entries| :: after[j] == entries[j];
      if Has(entries, k) {
        assert after[IndexOf(entries, k)].key == k;
        assert i == IndexOf(entries, k);
      } else if k == key {
        assert after[|entries|].key == k;
        assert i == |entries|;
      }
    }
  }

  /** Under a key, the first `n` entries that come in leave what was there, what came, or both merged. */
  lemma {:induction false} EntryMerged(previous: seq<Entry>, incoming: Json, n: nat, k: string)
    requires incoming.Obj? && Proper(incoming) && n <= |incoming.entries|
    requires MergeEntries(previous, incoming, n).Some?
    ensures var merged, i := MergeEntries(previous, incoming, n).value, IndexOf(incoming.entries, k);
            if i >= n then
              && (Has(merged, k) <==> Has(previous, k))
              && (Has(merged, k) ==> Get(merged, k) == Get(previous, k))
            else
              && Has(merged, k)
              && if Has(previous, k) then
                   Merge(Get(previous, k), incoming.entries[i].value) == Some(Get(merged, k))
                 else Get(merged, k) == incoming.entries[i].value
  {
    hide Merge, With, IndexOf;
    if n > 0 {
      var e := incoming.entries[n - 1];
      var merged := MergeEntries(previous, incoming, n - 1).value;
      EntryMerged(previous, incoming, n - 1, k);
      EntryMerged(previous, incoming, n - 1, e.key);
      HasAt(incoming.entries, n - 1);
      if Has(merged, e.key) {
        WithGet(merged, e.key, Merge(Get(merged, e.key), e.value).value, k);
      } else {
        WithGet(merged, e.key, e.value, k);
      }
    }
  }

  lemma {:induction false} EntriesFail(previous: seq<Entry>, incoming: Json, n: nat)
    requires incoming.Obj? && Proper(incoming) && n <= |incoming.entries|
    ensures MergeEntries(previous, incoming, n).None?
            <==> exists i | 0 <= i < n :: Has(previous, incoming.entries[i].key)
                                          && Merge(Get(previous, incoming.entries[i].key),
                                                   incoming.entries[i].value).None?
  {
    hide Merge, With, IndexOf;
    if n > 0 {
      EntriesFail(previous, incoming, n - 1);
      if MergeEntries(previous, incoming, n - 1).Some? {
        EntryMerged(previous, incoming, n - 1, incoming.entries[n - 1].key);
        HasAt(incoming.entries, n - 1);
      }
    }
  }

  /** Every setting of either side is in the result, and nothing else. */
  lemma {:induction false} MergeKeeps(a: Json, b: Json, path: seq<string>)
    requires Proper(b) && Merge(a, b).Some?
    ensures Setting(Merge(a, b).value, path)
            == if Setting(a, path).Some? then Setting(a, path) else Setting(b, path)
    ensures !Clash(a, b, path)
    decreases |path|
  {
    hide MergeEntries, IndexOf;
    if path != [] && a.Obj? && b.Obj? {
      var k := path[0];
      EntryMerged(a.entries, b, |b.entries|, k);
      if Has(a.entries, k) && Has(b.entries, k) {
        MergeKeeps(Get(a.entries, k), Get(b.entries, k), path[1..]);
      }
    }
  }

  lemma {:induction false} MergeFails(a: Json, b: Json) returns (path: seq<string>)
    requires Proper(b) && Merge(a, b).None?
    ensures Clash(a, b, path)
    decreases b
  {
    hide MergeEntries, IndexOf;
    path := [];
    if a.Obj? && b.Obj? {
      EntriesFail(a.entries, b, |b.entries|);
      var i :| 0 <= i < |b.entries| && Has(a.entries, b.entries[i].key)
               && Merge(Get(a.entries, b.entries[i].key), b.entries[i].value).None?;
      path := MergeFails(Get(a.entries, b.entries[i].key), b.entries[i].value);
      HasAt(b.entries, i);
      path := [b.entries[i].key] + path;
    }
  }

  /** Two configurations of one profile merge unless there is a setting that they give different values, and then the
      result has the settings of both and no other. */
  lemma MergeExactly(a: Json, b: Json)
    requires Proper(b)
    ensures Merge(a, b).Some? <==> forall path :: !Clash(a, b, path)
    ensures Merge(a, b).Some? ==>
              forall path :: Setting(Merge(a, b).value, path)
                             == if Setting(a, path).Some? then Setting(a, path) else Setting(b, path)
  {
    hide Merge, Clash, Setting;
    if Merge(a, b).Some? {
      forall path
        ensures !Clash(a, b, path)
        ensures Setting(Merge(a, b).value, path)
                == if Setting(a, path).Some? then Setting(a, path) else Setting(b, path)
      {
        MergeKeeps(a, b, path);
      }
    } else {
      var path := MergeFails(a, b);
    }
  }

  // ----- profile maps -----

  /** A profile's configuration, with its own identity in the dialect. */
  ghost function ProfileIn(v: Json, d: Dialect): Json {
    if v.Obj? then
      Obj(seq(|v.entries|, i requires 0 <= i < |v.entries| =>
        var e := v.entries[i];
        if e.key == "profile_id" && e.value.Str? then Entry(e.key, Str(NameIn(e.value.s, d, true))) else e))
    else v
  }

  /** The names of the first `n` profiles, each once. */
  ghost function NamesOf(entries: seq<Entry>, n: nat, d: Dialect): (names: seq<string>)
    requires n <= |entries|
  {
    if n == 0 then []
    else
      var names, name := NamesOf(entries, n - 1, d), NameIn(entries[n - 1].key, d, true);
      if name in names then names else names + [name]
  }

  /** What the first `n` entries configure under one name. */
  ghost function ConfigsOf(entries: seq<Entry>, n: nat, name: string, d: Dialect): seq<Json>
    requires n <= |entries|
  {
    if n == 0 then []
    else
      ConfigsOf(entries, n - 1, name, d)
      + if NameIn(entries[n - 1].key, d, true) == name then [ProfileIn(entries[n - 1].value, d)] else []
  }

  ghost function MergeAll(configs: seq<Json>): Option<Json>
    requires configs != []
  {
    if |configs| == 1 then Some(configs[0])
    else
      var front :- MergeAll(configs[..|configs| - 1]);
      Merge(front, configs[|configs| - 1])
  }

  /** One profile for each name, with everything that was configured under it. */
  ghost predicate IsProfileMap(entries: seq<Entry>, n: nat, r: seq<Entry>, d: Dialect)
    requires n <= |entries|
  {
    && |r| == |NamesOf(entries, n, d)|
    && forall j | 0 <= j < |r| ::
         && r[j].key == NamesOf(entries, n, d)[j]
         && ConfigsOf(entries, n, r[j].key, d) != []
         && MergeAll(ConfigsOf(entries, n, r[j].key, d)) == Some(r[j].value)
  }

  ghost predicate Conflict(entries: seq<Entry>, n: nat, name: string, d: Dialect)
    requires n <= |entries|
  {
    ConfigsOf(entries, n, name, d) != [] && MergeAll(ConfigsOf(entries, n, name, d)).None?
  }

  lemma ProfileIsProfileIn(v: Json, d: Dialect)
    ensures Profile(v, d) == ProfileIn(v, d)
  {
    hide NameIn, Identity;
    if v.Obj? {
      forall i | 0 <= i < |v.entries|
        ensures ProfileEntries(v.entries, d)[i] == ProfileIn(v, d).entries[i]
      {
        if v.entries[i].value.Str? {
          IdentityIsNameIn(v.entries[i].value.s, d, true);
        }
      }
      assert ProfileEntries(v.entries, d) == ProfileIn(v, d).entries;
    }
  }

  lemma {:induction false} NamesAndConfigs(entries: seq<Entry>, n: nat, name: string, d: Dialect)
    requires n <= |entries|
    ensures name in NamesOf(entries, n, d) <==> ConfigsOf(entries, n, name, d) != []
    ensures var names := NamesOf(entries, n, d); forall i, k | 0 <= i < k < |names| :: names[i] != names[k]
  {
    hide NameIn;
    if n > 0 {
      NamesAndConfigs(entries, n - 1, name, d);
    }
  }

  /** What one entry more does to what is configured under a name. */
  lemma OneMoreConfig(entries: seq<Entry>, n: nat, name: string, d: Dialect)
    requires n < |entries|
    ensures var was, now := ConfigsOf(entries, n, name, d), ConfigsOf(entries, n + 1, name, d);
            if NameIn(entries[n].key, d, true) != name then now == was
            else
              && now == was + [ProfileIn(entries[n].value, d)]
              && MergeAll(now) == if was == [] then Some(ProfileIn(entries[n].value, d))
                                  else if MergeAll(was).None? then None
                                  else Merge(MergeAll(was).value, ProfileIn(entries[n].value, d))
  {
    hide NameIn, Merge, ProfileIn;
    var was, now := ConfigsOf(entries, n, name, d), ConfigsOf(entries, n + 1, name, d);
    if now != was {
      assert now[..|now| - 1] == was;
    }
  }

  lemma NoConflict(entries: seq<Entry>, n: nat, r: seq<Entry>, name: string, d: Dialect)
    requires n <= |entries| && IsProfileMap(entries, n, r, d)
    ensures !Conflict(entries, n, name, d)
    ensures Has(r, name) <==> name in NamesOf(entries, n, d)
    ensures Has(r, name) ==>
              ConfigsOf(entries, n, name, d) != []
              && MergeAll(ConfigsOf(entries, n, name, d)) == Some(Get(r, name))
    ensures !Has(r, name) ==> ConfigsOf(entries, n, name, d) == []
  {
    hide NameIn, MergeAll, ProfileIn, IndexOf, NamesOf, ConfigsOf;
    NamesAndConfigs(entries, n, name, d);
    HasMeans(r, name);
    if name in NamesOf(entries, n, d) {
      var j :| 0 <= j < |r| && NamesOf(entries, n, d)[j] == name;
      assert r[j].key == name;
    }
  }

  lemma ConflictStays(entries: seq<Entry>, n: nat, name: string, d: Dialect)
    requires n < |entries| && Conflict(entries, n, name, d)
    ensures Conflict(entries, n + 1, name, d)
  {
    hide NameIn, MergeAll, ProfileIn;
    OneMoreConfig(entries, n, name, d);
  }

  /** A profile under a name that is there already. */
  lemma MergedProfile(entries: seq<Entry>, n: nat, r: seq<Entry>, value: Json, d: Dialect)
    requires n < |entries| && IsProfileMap(entries, n, r, d)
    requires var name := NameIn(entries[n].key, d, true);
             Has(r, name) && Merge(Get(r, name), ProfileIn(entries[n].value, d)) == Some(value)
    ensures IsProfileMap(entries, n + 1, With(r, NameIn(entries[n].key, d, true), value), d)
  {
    hide NameIn, MergeAll, ProfileIn, IndexOf, ConfigsOf, Merge;
    var name := NameIn(entries[n].key, d, true);
    var after := With(r, name, value);
    NoConflict(entries, n, r, name, d);
    assert NamesOf(entries, n + 1, d) == NamesOf(entries, n, d);
    forall j | 0 <= j < |after|
      ensures after[j].key == NamesOf(entries, n, d)[j]
      ensures ConfigsOf(entries, n + 1, after[j].key, d) != []
      ensures MergeAll(ConfigsOf(entries, n + 1, after[j].key, d)) == Some(after[j].value)
    {
      OneMoreConfig(entries, n, r[j].key, d);
      NamesAndConfigs(entries, n, name, d);
    }
  }

  /** A profile under a new name. */
  lemma NewProfile(entries: seq<Entry>, n: nat, r: seq<Entry>, d: Dialect)
    requires n < |entries| && IsProfileMap(entries, n, r, d) && !Has(r, NameIn(entries[n].key, d, true))
    ensures IsProfileMap(entries, n + 1, With(r, NameIn(entries[n].key, d, true), ProfileIn(entries[n].value, d)), d)
  {
    hide NameIn, MergeAll, ProfileIn, IndexOf, ConfigsOf, Merge;
    var name := NameIn(entries[n].key, d, true);
    var after := With(r, name, ProfileIn(entries[n].value, d));
    NoConflict(entries, n, r, name, d);
    assert NamesOf(entries, n + 1, d) == NamesOf(entries, n, d) + [name];
    forall j | 0 <= j < |after|
      ensures after[j].key == NamesOf(entries, n + 1, d)[j]
      ensures ConfigsOf(entries, n + 1, after[j].key, d) != []
      ensures MergeAll(ConfigsOf(entries, n + 1, after[j].key, d)) == Some(after[j].value)
    {
      OneMoreConfig(entries, n, after[j].key, d);
      if j < |r| {
        assert after[j] == r[j] && r[j].key in NamesOf(entries, n, d);
      }
    }
  }

  /** A profile map is translated to one profile for each name in the dialect, or not at all when the configurations
      of a name cannot be merged. */
  lemma {:induction false} ProfileMapMeans(entries: seq<Entry>, n: nat, d: Dialect)
    requires n <= |entries|
    ensures ProfileMap(entries, n, d).Some? ==> IsProfileMap(entries, n, ProfileMap(entries, n, d).value, d)
    ensures ProfileMap(entries, n, d).None? ==> exists name :: Conflict(entries, n, name, d)
  {
    hide Identity, NameIn, Profile, ProfileIn, Merge, MergeAll, IndexOf, With;
    if n > 0 {
      ProfileMapMeans(entries, n - 1, d);
      var name, config := NameIn(entries[n - 1].key, d, true), ProfileIn(entries[n - 1].value, d);
      IdentityIsNameIn(entries[n - 1].key, d, true);
      ProfileIsProfileIn(entries[n - 1].value, d);
      hide IsProfileMap, Conflict, ConfigsOf;
      var before := ProfileMap(entries, n - 1, d);
      if before.None? {
        var other :| Conflict(entries, n - 1, other, d);
        ConflictStays(entries, n - 1, other, d);
      } else if !Has(before.value, name) {
        NewProfile(entries, n - 1, before.value, d);
      } else {
        var merged := Merge(Get(before.value, name), config);
        if merged.Some? {
          MergedProfile(entries, n - 1, before.value, merged.value, d);
        } else {
          Unmergeable(entries, n - 1, before.value, d);
        }
      }
    }
  }

  lemma Unmergeable(entries: seq<Entry>, n: nat, r: seq<Entry>, d: Dialect)
    requires n < |entries| && IsProfileMap(entries, n, r, d)
    requires var name := NameIn(entries[n].key, d, true);
             Has(r, name) && Merge(Get(r, name), ProfileIn(entries[n].value, d)).None?
    ensures Conflict(entries, n + 1, NameIn(entries[n].key, d, true), d)
  {
    hide NameIn, MergeAll, ProfileIn, IndexOf, ConfigsOf, Merge;
    NoConflict(entries, n, r, NameIn(entries[n].key, d, true), d);
    OneMoreConfig(entries, n, NameIn(entries[n].key, d, true), d);
  }

  // ----- trees -----

  /** A record of another source than this product. */
  ghost predicate Elsewhere(entries: seq<Entry>) {
    exists i | 0 <= i < |entries| ::
      && entries[i].key == "source" && entries[i].value.Str? && entries[i].value.s != "builtin"
      && forall k | 0 <= k < i :: entries[k].key != "source"
  }

  ghost predicate Catalog(entries: seq<Entry>) {
    exists i | 0 <= i < |entries| :: entries[i].key == "toolCount" || entries[i].key == "defaultTools"
  }

  ghost predicate HoldsAgent(key: string, catalog: bool) {
    || key in {"agentType", "parentAgentType", "modeId", "lastUserDialogAgentType", "lastSubmittedAgentType"}
    || key in {"agent_type", "parent_agent_type", "mode_id", "default_mode_id", "last_mode_id",
               "last_user_dialog_agent_type", "last_submitted_agent_type"}
    || (key == "id" && catalog)
  }

  ghost predicate HoldsText(key: string) {
    key in {"content", "prompt", "arguments", "args", "input", "output", "metadata", "userMessageMetadata",
            "user_message_metadata", "value"}
  }

  ghost predicate HoldsAgents(key: string) {
    key in {"configProfileMemberModeIds", "allowedParentAgentIds", "deniedParentAgentIds"}
  }

  ghost predicate HoldsProfile(key: string) {
    key == "configProfileId" || key == "profile_id"
  }

  ghost predicate HoldsProfiles(key: string) {
    key == "agent_profiles" || key == "ai.agent_profiles"
  }

  /** `w` is `v` with the dialect's names for all agents and profiles, and nothing else changed. */
  ghost predicate IsIn(v: Json, w: Json, d: Dialect)
    decreases v, 0
  {
    match v
    case Arr(items) =>
      w.Arr? && |w.items| == |items| && forall i | 0 <= i < |items| :: IsIn(items[i], w.items[i], d)
    case Obj(entries) =>
      if Elsewhere(entries) then w == v
      else
        && w.Obj? && |w.entries| == |entries|
        && forall i | 0 <= i < |entries| ::
             && w.entries[i].key == entries[i].key
             && IsFieldIn(entries[i].key, entries[i].value, w.entries[i].value, Catalog(entries), d)
    case _ => w == v
  }

  ghost predicate IsFieldIn(key: string, v: Json, w: Json, catalog: bool, d: Dialect)
    decreases v, 1
  {
    if v.Str? && HoldsProfile(key) then w == Str(NameIn(v.s, d, true))
    else if v.Str? && HoldsAgent(key, catalog) then w == Str(NameIn(v.s, d, false))
    else if v.Arr? && HoldsAgents(key) then
      && w.Arr? && |w.items| == |v.items|
      && forall i | 0 <= i < |v.items| ::
           w.items[i] == if v.items[i].Str? then Str(NameIn(v.items[i].s, d, false)) else v.items[i]
    else if v.Obj? && HoldsProfiles(key) then w.Obj? && IsProfileMap(v.entries, |v.entries|, w.entries, d)
    else if HoldsText(key) then w == v
    else IsIn(v, w, d)
  }

  /** Somewhere in the tree the configurations of a profile cannot be merged. */
  ghost predicate Conflicting(v: Json, d: Dialect)
    decreases v, 0
  {
    match v
    case Arr(items) => exists i | 0 <= i < |items| :: Conflicting(items[i], d)
    case Obj(entries) =>
      && !Elsewhere(entries)
      && exists i | 0 <= i < |entries| :: FieldConflicting(entries[i].key, entries[i].value, d)
    case _ => false
  }

  ghost predicate FieldConflicting(key: string, v: Json, d: Dialect)
    decreases v, 1
  {
    if v.Obj? && HoldsProfiles(key) then exists name :: Conflict(v.entries, |v.entries|, name, d)
    else !HoldsText(key) && !(v.Arr? && HoldsAgents(key)) && Conflicting(v, d)
  }

  lemma ElsewhereIsForeign(entries: seq<Entry>)
    ensures Elsewhere(entries) <==> IsForeign(entries)
  {
    HasMeans(entries, "source");
    if Elsewhere(entries) {
      var i :| 0 <= i < |entries| && entries[i].key == "source" && entries[i].value.Str?
               && entries[i].value.s != "builtin" && forall k | 0 <= k < i :: entries[k].key != "source";
      assert IndexOf(entries, "source") == i;
    }
    if IsForeign(entries) {
      var i := IndexOf(entries, "source");
      assert entries[i].key == "source";
    }
  }

  lemma CatalogIsCatalogEntry(entries: seq<Entry>)
    ensures Catalog(entries) <==> IsCatalogEntry(entries)
  {
    HasMeans(entries, "toolCount");
    HasMeans(entries, "defaultTools");
  }

  lemma IdListIn(items: seq<Json>, d: Dialect)
    ensures forall i | 0 <= i < |items| ::
              IdList(items, d)[i] == if items[i].Str? then Str(NameIn(items[i].s, d, false)) else items[i]
  {
    hide Identity, NameIn;
    forall i | 0 <= i < |items|
      ensures IdList(items, d)[i] == if items[i].Str? then Str(NameIn(items[i].s, d, false)) else items[i]
    {
      if items[i].Str? {
        IdentityIsNameIn(items[i].s, d, false);
      }
    }
  }

  lemma WholeProfileMapIn(entries: seq<Entry>, d: Dialect)
    ensures WholeProfileMap(entries, d).None? <==> exists name :: Conflict(entries, |entries|, name, d)
    ensures WholeProfileMap(entries, d).Some? ==>
              && WholeProfileMap(entries, d).value.Obj?
              && IsProfileMap(entries, |entries|, WholeProfileMap(entries, d).value.entries, d)
  {
    hide ProfileMap, IsProfileMap, Conflict;
    ProfileMapMeans(entries, |entries|, d);
    var r := ProfileMap(entries, |entries|, d);
    if r.Some? {
      forall name: string
        ensures !Conflict(entries, |entries|, name, d)
      {
        NoConflict(entries, |entries|, r.value, name, d);
      }
    }
  }

  /** What a translation is to come to. */
  ghost predicate Exact(v: Json, d: Dialect) {
    && (Translate(v, d).None? <==> Conflicting(v, d))
    && (Translate(v, d).Some? ==> IsIn(v, Translate(v, d).value, d))
  }

  lemma {:induction false} FieldExactly(key: string, v: Json, catalog: bool, d: Dialect)
    requires Exact(v, d)
    ensures TranslateField(key, v, catalog, d).None? <==> FieldConflicting(key, v, d)
    ensures TranslateField(key, v, catalog, d).Some? ==>
              IsFieldIn(key, v, TranslateField(key, v, catalog, d).value, catalog, d)
  {
    hide Identity, NameIn, WholeProfileMap, IdList, IsProfileMap, Conflict, Translate, IsIn;
    if v.Obj? {
      WholeProfileMapIn(v.entries, d);
    }
    if v.Str? {
      IdentityIsNameIn(v.s, d, false);
      IdentityIsNameIn(v.s, d, true);
      assert !Conflicting(v, d);
    }
    if v.Arr? {
      IdListIn(v.items, d);
    }
  }

  lemma {:induction false} ItemsExactly(v: Json, n: nat, d: Dialect)
    requires v.Arr? && n <= |v.items| && forall i | 0 <= i < n :: Exact(v.items[i], d)
    ensures TranslateItems(v, n, d).None? <==> exists i | 0 <= i < n :: Conflicting(v.items[i], d)
    ensures TranslateItems(v, n, d).Some? ==>
              forall i | 0 <= i < n :: IsIn(v.items[i], TranslateItems(v, n, d).value[i], d)
  {
    hide Translate, IsIn, Conflicting;
    if n > 0 {
      ItemsExactly(v, n - 1, d);
      assert Exact(v.items[n - 1], d);
    }
  }

  lemma {:induction false} EntriesExactly(v: Json, n: nat, d: Dialect)
    requires v.Obj? && n <= |v.entries| && forall i | 0 <= i < n :: Exact(v.entries[i].value, d)
    ensures TranslateEntries(v, n, d).None?
            <==> exists i | 0 <= i < n :: FieldConflicting(v.entries[i].key, v.entries[i].value, d)
    ensures TranslateEntries(v, n, d).Some? ==>
              forall i | 0 <= i < n ::
                var e, f := v.entries[i], TranslateEntries(v, n, d).value[i];
                e.key == f.key && IsFieldIn(e.key, e.value, f.value, IsCatalogEntry(v.entries), d)
  {
    hide TranslateField, IsFieldIn, FieldConflicting, IsCatalogEntry, Exact;
    if n > 0 {
      EntriesExactly(v, n - 1, d);
      FieldExactly(v.entries[n - 1].key, v.entries[n - 1].value, IsCatalogEntry(v.entries), d);
    }
  }

  /** Every JSON tree: the translation has the dialect's name for every agent and profile and changes nothing else, and
      fails exactly when the configurations of a profile cannot be merged. */
  lemma {:induction false} TranslateExactly(v: Json, d: Dialect)
    ensures Exact(v, d)
    decreases v
  {
    hide Exact, TranslateEntries, TranslateItems;
    match v {
      case Arr(items) =>
        forall i | 0 <= i < |items|
          ensures Exact(items[i], d)
        {
          TranslateExactly(items[i], d);
        }
        ArrExactly(v, d);
      case Obj(entries) =>
        forall i | 0 <= i < |entries|
          ensures Exact(entries[i].value, d)
        {
          TranslateExactly(entries[i].value, d);
        }
        ObjExactly(v, d);
      case _ =>
        ScalarExactly(v, d);
    }
  }

  lemma ScalarExactly(v: Json, d: Dialect)
    requires !v.Arr? && !v.Obj?
    ensures Exact(v, d)
  {
  }

  lemma ArrExactly(v: Json, d: Dialect)
    requires v.Arr? && forall i | 0 <= i < |v.items| :: Exact(v.items[i], d)
    ensures Exact(v, d)
  {
    hide TranslateItems;
    ItemsExactly(v, |v.items|, d);
  }

  lemma ObjExactly(v: Json, d: Dialect)
    requires v.Obj? && forall i | 0 <= i < |v.entries| :: Exact(v.entries[i].value, d)
    ensures Exact(v, d)
  {
    hide TranslateEntries, IsForeign, IsCatalogEntry, Elsewhere, Catalog;
    ElsewhereIsForeign(v.entries);
    CatalogIsCatalogEntry(v.entries);
    EntriesExactly(v, |v.entries|, d);
  }

  /** What was translated to a dialect has no name of the other. */
  lemma TranslatedSpeaks(v: Json, d: Dialect)
    ensures Translate(v, d).Some? ==> IsIn(Translate(v, d).value, Translate(v, d).value, d)
  {
    hide Translate, IsIn, Conflicting;
    TranslateLastWins(v, d, d);
    if Translate(v, d).Some? {
      TranslateExactly(Translate(v, d).value, d);
    }
  }
}
