// Translation of agent identities in JSON trees between two dialects (wire.ts).
module Wire {
  import opened Common
  import opened Harness

  /** A number is its text, so that equal values are those with equal JSON text. */
  datatype Json =
    | Null | Bool(b: bool) | Num(text: string) | Str(s: string) | Arr(items: seq<Json>) | Obj(entries: seq<Entry>)
  datatype Entry = Entry(key: string, value: Json)

  const PROFILE_ID := "profile_id"

  // ----- ordered records, as `Map` and object literals keep them -----

  function IndexOf(entries: seq<Entry>, key: string): (i: nat)
    ensures i <= |entries|
    ensures i < |entries| ==> entries[i].key == key
    ensures forall k | 0 <= k < i :: entries[k].key != key
  {
    if entries == [] then 0
    else if entries[0].key == key then 0
    else 1 + IndexOf(entries[1..], key)
  }

  predicate Has(entries: seq<Entry>, key: string) {
    IndexOf(entries, key) < |entries|
  }

  function Get(entries: seq<Entry>, key: string): Json
    requires Has(entries, key)
  {
    entries[IndexOf(entries, key)].value
  }

  /** A key that is there keeps its place. */
  function With(entries: seq<Entry>, key: string, value: Json): seq<Entry> {
    if Has(entries, key) then entries[IndexOf(entries, key) := Entry(key, value)]
    else entries + [Entry(key, value)]
  }

  // ----- profile maps -----

  /** `mergeProfileRecords`; no value stands for the error it throws. */
  function Merge(previous: Json, incoming: Json): Option<Json>
    decreases incoming, 1, 0
  {
    if previous.Null? then Some(incoming)
    else if incoming.Null? then Some(previous)
    else if previous.Obj? && incoming.Obj? then
      var merged :- MergeEntries(previous.entries, incoming, |incoming.entries|);
      Some(Obj(merged))
    else if previous == incoming then Some(previous)
    else None
  }

  function MergeEntries(previous: seq<Entry>, incoming: Json, n: nat): Option<seq<Entry>>
    requires incoming.Obj? && n <= |incoming.entries|
    decreases incoming, 0, n
  {
    if n == 0 then Some(previous)
    else
      var merged :- MergeEntries(previous, incoming, n - 1);
      var e := incoming.entries[n - 1];
      if Has(merged, e.key) then
        var value :- Merge(Get(merged, e.key), e.value);
        Some(With(merged, e.key, value))
      else Some(With(merged, e.key, e.value))
  }

  method MergeProfileRecords(previous: Json, incoming: Json) returns (merged: Option<Json>)
    ensures merged == Merge(previous, incoming)
    decreases incoming
  {
    if previous.Null? {
      return Some(incoming);
    }
    if incoming.Null? {
      return Some(previous);
    }
    if previous.Obj? && incoming.Obj? {
      var entries := previous.entries;
      for n := 0 to |incoming.entries|
        invariant MergeEntries(previous.entries, incoming, n) == Some(entries)
      {
        var e := incoming.entries[n];
        if Has(entries, e.key) {
          var value := MergeProfileRecords(Get(entries, e.key), e.value);
          if value.None? {
            StaysFailed(previous.entries, incoming, n + 1, |incoming.entries|);
            return None;
          }
          entries := With(entries, e.key, value.value);
        } else {
          entries := With(entries, e.key, e.value);
        }
      }
      return Some(Obj(entries));
    }
    merged := if previous == incoming then Some(previous) else None;
  }

  lemma {:induction false} StaysFailed(previous: seq<Entry>, incoming: Json, m: nat, n: nat)
    requires incoming.Obj? && m <= n <= |incoming.entries|
    requires MergeEntries(previous, incoming, m) == None
    ensures MergeEntries(previous, incoming, n) == None
  {
    hide With;
    if m < n {
      StaysFailed(previous, incoming, m, n - 1);
    }
  }

  function ProfileId(key: string, value: Json, d: Dialect): Json {
    if key == PROFILE_ID && value.Str? then Str(Identity(value.s, d, true)) else value
  }

  function ProfileEntries(entries: seq<Entry>, d: Dialect): (r: seq<Entry>)
    ensures |r| == |entries|
  {
    seq(|entries|, i requires 0 <= i < |entries| => Entry(entries[i].key,
                                                          ProfileId(entries[i].key, entries[i].value, d)))
  }

  /** `translateProfile`. */
  function Profile(value: Json, d: Dialect): Json {
    if value.Obj? then Obj(ProfileEntries(value.entries, d)) else value
  }

  /** The first `n` entries of a profile map, under their identities in the dialect. */
  function ProfileMap(entries: seq<Entry>, n: nat, d: Dialect): Option<seq<Entry>>
    requires n <= |entries|
  {
    if n == 0 then Some([])
    else
      var profiles :- ProfileMap(entries, n - 1, d);
      var key, profile := Identity(entries[n - 1].key, d, true), Profile(entries[n - 1].value, d);
      if Has(profiles, key) then
        var merged :- Merge(Get(profiles, key), profile);
        Some(With(profiles, key, merged))
      else Some(With(profiles, key, profile))
  }

  method TranslateProfileMap(value: Json, d: Dialect) returns (translated: Option<Json>)
    ensures translated == if value.Obj? then WholeProfileMap(value.entries, d) else Some(value)
  {
    hide Identity, Profile, Merge, With;
    if !value.Obj? {
      return Some(value);
    }
    var entries, profiles := value.entries, [];
    for n := 0 to |entries|
      invariant ProfileMap(entries, n, d) == Some(profiles)
    {
      var key, profile := Identity(entries[n].key, d, true), Profile(entries[n].value, d);
      if Has(profiles, key) {
        var merged := MergeProfileRecords(Get(profiles, key), profile);
        if merged.None? {
          MapStaysFailed(entries, n + 1, |entries|, d);
          return None;
        }
        profiles := With(profiles, key, merged.value);
      } else {
        profiles := With(profiles, key, profile);
      }
    }
    translated := Some(Obj(profiles));
  }

  lemma {:induction false} MapStaysFailed(entries: seq<Entry>, m: nat, n: nat, d: Dialect)
    requires m <= n <= |entries| && ProfileMap(entries, m, d) == None
    ensures ProfileMap(entries, n, d) == None
  {
    hide Identity, Profile, Merge, With;
    if m < n {
      MapStaysFailed(entries, m, n - 1, d);
    }
  }

  function WholeProfileMap(entries: seq<Entry>, d: Dialect): Option<Json> {
    var profiles :- ProfileMap(entries, |entries|, d);
    Some(Obj(profiles))
  }

  // ----- all trees -----

  predicate IsAgentField(key: string) {
    key in {"agentType", "agent_type", "parentAgentType", "parent_agent_type",
            "modeId", "mode_id", "default_mode_id", "last_mode_id",
            "lastUserDialogAgentType", "last_user_dialog_agent_type",
            "lastSubmittedAgentType", "last_submitted_agent_type"}
  }

  predicate IsOpaque(key: string) {
    key in {"content", "prompt", "arguments", "args", "input", "output", "metadata",
            "userMessageMetadata", "user_message_metadata", "value"}
  }

  predicate IsIdList(key: string) {
    key in {"configProfileMemberModeIds", "allowedParentAgentIds", "deniedParentAgentIds"}
  }

  /** A record of another source than this product. */
  predicate IsForeign(entries: seq<Entry>) {
    Has(entries, "source") && Get(entries, "source").Str? && Get(entries, "source").s != "builtin"
  }

  predicate IsCatalogEntry(entries: seq<Entry>) {
    Has(entries, "toolCount") || Has(entries, "defaultTools")
  }

  function IdList(items: seq<Json>, d: Dialect): (r: seq<Json>)
    ensures |r| == |items|
  {
    seq(|items|, i requires 0 <= i < |items| => if items[i].Str? then Str(Identity(items[i].s, d, false)) else items[i])
  }

  /** `translateAgentIdentityFields`; no value stands for an error. */
  function Translate(v: Json, d: Dialect): Option<Json>
    decreases v, 1, 0
  {
    match v
    case Arr(items) =>
      var r :- TranslateItems(v, |items|, d);
      Some(Arr(r))
    case Obj(entries) =>
      if IsForeign(entries) then Some(v)
      else
        var r :- TranslateEntries(v, |entries|, d);
        Some(Obj(r))
    case _ => Some(v)
  }

  function TranslateItems(v: Json, n: nat, d: Dialect): (r: Option<seq<Json>>)
    requires v.Arr? && n <= |v.items|
    ensures r.Some? ==> |r.value| == n
    decreases v, 0, n
  {
    if n == 0 then Some([])
    else
      var front :- TranslateItems(v, n - 1, d);
      var last :- Translate(v.items[n - 1], d);
      Some(front + [last])
  }

  function TranslateEntries(v: Json, n: nat, d: Dialect): (r: Option<seq<Entry>>)
    requires v.Obj? && n <= |v.entries|
    ensures r.Some? ==> |r.value| == n
    decreases v, 0, n
  {
    if n == 0 then Some([])
    else
      var front :- TranslateEntries(v, n - 1, d);
      var last :- TranslateField(v.entries[n - 1].key, v.entries[n - 1].value, IsCatalogEntry(v.entries), d);
      Some(front + [Entry(v.entries[n - 1].key, last)])
  }

  function TranslateField(key: string, item: Json, catalogEntry: bool, d: Dialect): Option<Json>
    decreases item, 2, 0
  {
    var profile := key == "configProfileId" || key == PROFILE_ID;
    if key in {"agent_profiles", "ai.agent_profiles"} && item.Obj? then WholeProfileMap(item.entries, d)
    else if item.Str? && (profile || IsAgentField(key) || (catalogEntry && key == "id")) then
      Some(Str(Identity(item.s, d, profile)))
    else if IsIdList(key) && item.Arr? then Some(Arr(IdList(item.items, d)))
    else if IsOpaque(key) then Some(item)
    else Translate(item, d)
  }

  // ----- merging does not depend on the dialect -----

  lemma {:induction false} IndexByKeys(a: seq<Entry>, b: seq<Entry>, key: string)
    requires |a| == |b| && forall i | 0 <= i < |a| :: a[i].key == b[i].key
    ensures IndexOf(a, key) == IndexOf(b, key)
  {
    if a != [] && a[0].key != key {
      IndexByKeys(a[1..], b[1..], key);
    }
  }

  lemma ProfileIdLastWins(key: string, value: Json, g: Dialect, f: Dialect)
    ensures ProfileId(key, ProfileId(key, value, g), f) == ProfileId(key, value, f)
  {
    hide Identity;
    if key == PROFILE_ID && value.Str? {
      IdentityLastWins(value.s, g, f, true);
    }
  }

  lemma ProfileLastWins(v: Json, g: Dialect, f: Dialect)
    ensures Profile(Profile(v, g), f) == Profile(v, f)
  {
    hide ProfileId;
    if v.Obj? {
      forall i | 0 <= i < |v.entries|
        ensures ProfileEntries(ProfileEntries(v.entries, g), f)[i] == ProfileEntries(v.entries, f)[i]
      {
        ProfileIdLastWins(v.entries[i].key, v.entries[i].value, g, f);
      }
      assert ProfileEntries(ProfileEntries(v.entries, g), f) == ProfileEntries(v.entries, f);
    }
  }

  /** Merging two values of one key, in either dialect. */
  lemma MergeValues(key: string, x: Json, y: Json, g: Dialect, f: Dialect)
    ensures var mg, mf := Merge(ProfileId(key, x, g), ProfileId(key, y, g)),
            Merge(ProfileId(key, x, f), ProfileId(key, y, f));
            && (mg.None? <==> mf.None?)
            && (mg.Some? ==> ProfileId(key, mg.value, f) == mf.value && ProfileId(key, mg.value, g) == mg.value)
  {
    hide Identity;
    if key == PROFILE_ID {
      ProfileIdLastWins(key, x, g, f);
      ProfileIdLastWins(key, y, g, f);
      ProfileIdLastWins(key, x, g, g);
      ProfileIdLastWins(key, y, g, g);
      if x.Str? && y.Str? {
        DialectsAgree(x.s, y.s, g, f, true);
      }
    }
  }

  lemma ProfileEntriesOfWith(entries: seq<Entry>, key: string, value: Json, d: Dialect)
    ensures IndexOf(ProfileEntries(entries, d), key) == IndexOf(entries, key)
    ensures Has(entries, key) ==> Get(ProfileEntries(entries, d), key) == ProfileId(key, Get(entries, key), d)
    ensures ProfileEntries(With(entries, key, value), d)
            == With(ProfileEntries(entries, d), key, ProfileId(key, value, d))
  {
    hide ProfileId;
    IndexByKeys(ProfileEntries(entries, d), entries, key);
  }

  lemma {:induction false} MergeEntriesAgree(a: seq<Entry>, b: seq<Entry>, n: nat, g: Dialect, f: Dialect)
    requires n <= |b|
    ensures var mg := MergeEntries(ProfileEntries(a, g), Obj(ProfileEntries(b, g)), n);
            var mf := MergeEntries(ProfileEntries(a, f), Obj(ProfileEntries(b, f)), n);
            && (mg.None? <==> mf.None?)
            && (mg.Some? ==> ProfileEntries(mg.value, f) == mf.value && ProfileEntries(mg.value, g) == mg.value)
  {
    hide ProfileId, Merge;
    if n == 0 {
      ProfileLastWins(Obj(a), g, f);
      ProfileLastWins(Obj(a), g, g);
    } else {
      MergeEntriesAgree(a, b, n - 1, g, f);
      var mg := MergeEntries(ProfileEntries(a, g), Obj(ProfileEntries(b, g)), n - 1);
      if mg.Some? {
        MergeOneAgrees(mg.value, b[n - 1].key, b[n - 1].value, g, f);
      }
    }
  }

  /** One entry of a merge, into entries that are in dialect `g` already. */
  lemma MergeOneAgrees(m: seq<Entry>, key: string, value: Json, g: Dialect, f: Dialect)
    requires ProfileEntries(m, g) == m
    ensures Has(m, key) <==> Has(ProfileEntries(m, f), key)
    ensures Has(m, key) ==>
              var mg := Merge(Get(m, key), ProfileId(key, value, g));
              var mf := Merge(Get(ProfileEntries(m, f), key), ProfileId(key, value, f));
              && (mg.None? <==> mf.None?)
              && (mg.Some? ==>
                    && ProfileEntries(With(m, key, mg.value), f) == With(ProfileEntries(m, f), key, mf.value)
                    && ProfileEntries(With(m, key, mg.value), g) == With(m, key, mg.value))
    ensures !Has(m, key) ==>
              && ProfileEntries(With(m, key, ProfileId(key, value, g)), f)
              == With(ProfileEntries(m, f), key, ProfileId(key, value, f))
              && ProfileEntries(With(m, key, ProfileId(key, value, g)), g) == With(m, key, ProfileId(key, value, g))
  {
    hide ProfileId, Merge, ProfileEntries, With;
    ProfileIdLastWins(key, value, g, f);
    ProfileIdLastWins(key, value, g, g);
    ProfileEntriesOfWith(m, key, ProfileId(key, value, g), f);
    ProfileEntriesOfWith(m, key, ProfileId(key, value, g), g);
    if Has(m, key) {
      MergeValues(key, Get(m, key), value, g, f);
      var mg := Merge(Get(m, key), ProfileId(key, value, g));
      if mg.Some? {
        ProfileEntriesOfWith(m, key, mg.value, f);
        ProfileEntriesOfWith(m, key, mg.value, g);
      }
    }
  }

  /** Merging profiles succeeds in one dialect exactly when it does in the other, and with the same result but for
      the dialect. */
  lemma MergeAgrees(a: Json, b: Json, g: Dialect, f: Dialect)
    ensures var mg, mf := Merge(Profile(a, g), Profile(b, g)), Merge(Profile(a, f), Profile(b, f));
            && (mg.None? <==> mf.None?)
            && (mg.Some? ==> Profile(mg.value, f) == mf.value && Profile(mg.value, g) == mg.value)
  {
    hide ProfileEntries, MergeEntries;
    ProfileLastWins(a, g, f);
    ProfileLastWins(b, g, f);
    ProfileLastWins(a, g, g);
    ProfileLastWins(b, g, g);
    if a.Obj? && b.Obj? {
      MergeEntriesAgree(a.entries, b.entries, |b.entries|, g, f);
    }
  }

  // ----- profile maps in two dialects -----

  /** Every entry of a profile map under its identity, nothing merged. */
  function Renamed(entries: seq<Entry>, d: Dialect): (r: seq<Entry>)
    ensures |r| == |entries|
  {
    seq(|entries|, i requires 0 <= i < |entries| => Entry(Identity(entries[i].key, d, true),
                                                          Profile(entries[i].value, d)))
  }

  ghost predicate DistinctKeys(entries: seq<Entry>) {
    forall i, j | 0 <= i < j < |entries| :: entries[i].key != entries[j].key
  }

  /** A name in dialect `g` is where its translation will be. */
  lemma {:induction false} IndexOfRenamed(entries: seq<Entry>, id: string, g: Dialect, f: Dialect)
    requires forall e | e in entries :: Identity(e.key, g, true) == e.key
    ensures IndexOf(Renamed(entries, f), Identity(id, f, true)) == IndexOf(entries, Identity(id, g, true))
  {
    hide Identity, Profile;
    if entries != [] {
      DialectsAgree(entries[0].key, id, g, f, true);
      assert Renamed(entries, f)[1..] == Renamed(entries[1..], f);
      IndexOfRenamed(entries[1..], id, g, f);
    }
  }

  lemma RenamedOfWith(entries: seq<Entry>, id: string, value: Json, g: Dialect, f: Dialect)
    requires forall e | e in entries :: Identity(e.key, g, true) == e.key
    ensures Renamed(With(entries, Identity(id, g, true), value), f)
            == With(Renamed(entries, f), Identity(id, f, true), Profile(value, f))
    ensures DistinctKeys(entries) ==> DistinctKeys(With(entries, Identity(id, g, true), value))
  {
    hide Identity, Profile;
    IndexOfRenamed(entries, id, g, f);
    IdentityLastWins(id, g, f, true);
  }

  ghost predicate InDialect(entries: seq<Entry>, g: Dialect) {
    && DistinctKeys(entries)
    && (forall e | e in entries :: Identity(e.key, g, true) == e.key && Profile(e.value, g) == e.value)
  }

  lemma {:induction false} ProfileMapsAgree(entries: seq<Entry>, n: nat, g: Dialect, f: Dialect)
    requires n <= |entries|
    ensures var pg, pf := ProfileMap(entries, n, g), ProfileMap(entries, n, f);
            && (pg.None? <==> pf.None?)
            && (pg.Some? ==> pf.value == Renamed(pg.value, f) && InDialect(pg.value, g))
  {
    hide Identity, Profile, Merge, With, Renamed, InDialect;
    if n == 0 {
      NothingRenamed(g, f);
    } else {
      ProfileMapsAgree(entries, n - 1, g, f);
      var pg := ProfileMap(entries, n - 1, g);
      if pg.Some? {
        ProfileMapStep(pg.value, entries[n - 1].key, entries[n - 1].value, g, f);
      }
    }
  }

  lemma NothingRenamed(g: Dialect, f: Dialect)
    ensures Renamed([], f) == [] && InDialect([], g)
  {
  }

  lemma ProfileMapStep(pg: seq<Entry>, id: string, config: Json, g: Dialect, f: Dialect)
    requires InDialect(pg, g)
    ensures var kg, kf := Identity(id, g, true), Identity(id, f, true);
            var pf := Renamed(pg, f);
            && (Has(pg, kg) <==> Has(pf, kf))
            && (Has(pg, kg) ==>
                  var mg, mf := Merge(Get(pg, kg), Profile(config, g)), Merge(Get(pf, kf), Profile(config, f));
                  && (mg.None? <==> mf.None?)
                  && (mg.Some? ==>
                        && With(pf, kf, mf.value) == Renamed(With(pg, kg, mg.value), f)
                        && InDialect(With(pg, kg, mg.value), g)))
            && (!Has(pg, kg) ==>
                  With(pf, kf, Profile(config, f)) == Renamed(With(pg, kg, Profile(config, g)), f)
                  && InDialect(With(pg, kg, Profile(config, g)), g))
  {
    hide Identity, Profile, Merge;
    var kg, kf := Identity(id, g, true), Identity(id, f, true);
    IndexOfRenamed(pg, id, g, f);
    IdentityLastWins(id, g, g, true);
    ProfileLastWins(config, g, g);
    ProfileLastWins(config, g, f);
    if Has(pg, kg) {
      var had := Get(pg, kg);
      assert pg[IndexOf(pg, kg)] in pg;
      MergeAgrees(had, config, g, f);
      var mg := Merge(had, Profile(config, g));
      if mg.Some? {
        RenamedOfWith(pg, id, mg.value, g, f);
        WithInDialect(pg, kg, mg.value, g);
      }
    } else {
      RenamedOfWith(pg, id, Profile(config, g), g, f);
      WithInDialect(pg, kg, Profile(config, g), g);
    }
  }

  lemma WithInDialect(entries: seq<Entry>, key: string, value: Json, g: Dialect)
    requires InDialect(entries, g) && Identity(key, g, true) == key && Profile(value, g) == value
    ensures InDialect(With(entries, key, value), g)
  {
    hide Identity, Profile;
  }

  lemma NotBefore(entries: seq<Entry>, n: nat)
    requires DistinctKeys(entries) && n < |entries|
    ensures !Has(entries[..n], entries[n].key)
  {
    assert forall k | 0 <= k < n :: entries[..n][k] == entries[k];
  }

  lemma RenamedOfMore(entries: seq<Entry>, n: nat, f: Dialect)
    requires n < |entries|
    ensures Renamed(entries[..n + 1], f)
            == Renamed(entries[..n], f) + [Entry(Identity(entries[n].key, f, true), Profile(entries[n].value, f))]
  {
    hide Identity, Profile;
  }

  lemma FirstInDialect(entries: seq<Entry>, n: nat, g: Dialect)
    requires InDialect(entries, g) && n <= |entries|
    ensures InDialect(entries[..n], g)
    ensures n < |entries| ==> Identity(entries[n].key, g, true) == entries[n].key
  {
    hide Identity, Profile;
    forall e | e in entries[..n]
      ensures e in entries
    {
    }
  }

  /** A map that is in a dialect already has nothing left to merge. */
  lemma {:induction false} NothingToMerge(entries: seq<Entry>, n: nat, g: Dialect, f: Dialect)
    requires InDialect(entries, g) && n <= |entries|
    ensures ProfileMap(entries, n, f) == Some(Renamed(entries[..n], f))
  {
    hide Identity, Profile, Merge, IndexOf, InDialect, Renamed;
    if n == 0 {
      NothingRenamed(g, f);
    } else {
      NothingToMerge(entries, n - 1, g, f);
      FirstInDialect(entries, n - 1, g);
      NotRenamedBefore(entries, n - 1, g, f);
      RenamedOfMore(entries, n - 1, f);
    }
  }

  lemma NotRenamedBefore(entries: seq<Entry>, n: nat, g: Dialect, f: Dialect)
    requires InDialect(entries, g) && n < |entries|
    ensures !Has(Renamed(entries[..n], f), Identity(entries[n].key, f, true))
  {
    hide Identity, Profile;
    FirstInDialect(entries, n, g);
    NotBefore(entries, n);
    IndexOfRenamed(entries[..n], entries[n].key, g, f);
  }

  /** Profile maps: both dialects fail alike, and the last dialect wins. */
  lemma ProfileMapLastWins(entries: seq<Entry>, g: Dialect, f: Dialect)
    ensures WholeProfileMap(entries, g).None? <==> WholeProfileMap(entries, f).None?
    ensures WholeProfileMap(entries, g).Some? ==>
              && WholeProfileMap(entries, g).value.Obj?
              && WholeProfileMap(WholeProfileMap(entries, g).value.entries, f) == WholeProfileMap(entries, f)
  {
    hide Renamed, InDialect, ProfileMap;
    ProfileMapsAgree(entries, |entries|, g, f);
    var pg := ProfileMap(entries, |entries|, g);
    if pg.Some? {
      NothingToMerge(pg.value, |pg.value|, g, f);
      assert pg.value[..|pg.value|] == pg.value;
    }
  }

  // ----- all trees in two dialects -----

  lemma IdListLastWins(items: seq<Json>, g: Dialect, f: Dialect)
    ensures IdList(IdList(items, g), f) == IdList(items, f)
  {
    hide Identity;
    forall i | 0 <= i < |items|
      ensures IdList(IdList(items, g), f)[i] == IdList(items, f)[i]
    {
      if items[i].Str? {
        IdentityLastWins(items[i].s, g, f, false);
      }
    }
  }

  /** Both dialects fail alike on `v`, and the last dialect wins. */
  ghost predicate LastWins(v: Json, g: Dialect, f: Dialect) {
    var tg, tf := Translate(v, g), Translate(v, f);
    && (tg.None? <==> tf.None?)
    && (tg.Some? ==> Translate(tg.value, f) == tf)
  }

  predicate SameKind(a: Json, b: Json) {
    (a.Obj? <==> b.Obj?) && (a.Arr? <==> b.Arr?) && (a.Str? || b.Str? ==> a == b)
  }

  lemma TranslateKeepsKind(v: Json, d: Dialect)
    ensures Translate(v, d).Some? ==> SameKind(v, Translate(v, d).value)
  {
  }

  lemma {:induction false} FieldLastWins(key: string, item: Json, catalogEntry: bool, g: Dialect, f: Dialect)
    requires LastWins(item, g, f)
    ensures var tg, tf := TranslateField(key, item, catalogEntry, g), TranslateField(key, item, catalogEntry, f);
            && (tg.None? <==> tf.None?)
            && (tg.Some? ==> TranslateField(key, tg.value, catalogEntry, f) == tf)
            && (tg.Some? ==> (item.Str? <==> tg.value.Str?))
            && (tg.Some? && key == "source" ==> (item.Str? || tg.value.Str? ==> tg.value == item))
  {
    hide Identity, WholeProfileMap, IdList, Translate;
    TranslateKeepsKind(item, g);
    if item.Obj? {
      ProfileMapLastWins(item.entries, g, f);
    }
    if item.Str? {
      IdentityLastWins(item.s, g, f, false);
      IdentityLastWins(item.s, g, f, true);
    }
    if item.Arr? {
      IdListLastWins(item.items, g, f);
    }
  }

  lemma {:induction false} ItemsLastWin(v: Json, n: nat, g: Dialect, f: Dialect)
    requires v.Arr? && n <= |v.items|
    requires forall i | 0 <= i < n :: LastWins(v.items[i], g, f)
    ensures var tg, tf := TranslateItems(v, n, g), TranslateItems(v, n, f);
            && (tg.None? <==> tf.None?)
            && (tg.Some? ==> forall w: Json | w.Arr? && |w.items| >= n && w.items[..n] == tg.value ::
                  TranslateItems(w, n, f) == tf)
  {
    hide Translate;
    if n > 0 {
      ItemsLastWin(v, n - 1, g, f);
      var tg := TranslateItems(v, n, g);
      if tg.Some? {
        assert LastWins(v.items[n - 1], g, f);
        forall w: Json | w.Arr? && |w.items| >= n && w.items[..n] == tg.value
          ensures TranslateItems(w, n, f) == TranslateItems(v, n, f)
        {
          assert w.items[..n - 1] == w.items[..n][..n - 1] == tg.value[..n - 1];
          assert w.items[n - 1] == w.items[..n][n - 1];
        }
      }
    }
  }

  /** A record's keys, its being foreign and its being a catalog entry survive the translation of its fields. */
  predicate Resembles(v: Json, w: Json) {
    && v.Obj? && w.Obj? && |v.entries| == |w.entries|
    && (forall i | 0 <= i < |v.entries| ::
          && v.entries[i].key == w.entries[i].key
          && (v.entries[i].key == "source" && (v.entries[i].value.Str? || w.entries[i].value.Str?) ==>
                v.entries[i] == w.entries[i]))
  }

  lemma ResemblingRecords(v: Json, w: Json)
    requires Resembles(v, w)
    ensures IsForeign(v.entries) <==> IsForeign(w.entries)
    ensures IsCatalogEntry(v.entries) <==> IsCatalogEntry(w.entries)
  {
    IndexByKeys(v.entries, w.entries, "source");
    IndexByKeys(v.entries, w.entries, "toolCount");
    IndexByKeys(v.entries, w.entries, "defaultTools");
  }

  lemma NothingResembles(v: Json, w: Json)
    ensures v.Obj? && w.Obj? ==> Resembles(Obj(v.entries[..0]), Obj(w.entries[..0]))
  {
  }

  lemma OneMoreResembles(v: Json, w: Json, n: nat)
    requires v.Obj? && w.Obj? && n < |v.entries| == |w.entries|
    requires Resembles(Obj(v.entries[..n]), Obj(w.entries[..n]))
    requires var a, b := v.entries[n], w.entries[n];
             a.key == b.key && (a.key == "source" && (a.value.Str? || b.value.Str?) ==> a == b)
    ensures Resembles(Obj(v.entries[..n + 1]), Obj(w.entries[..n + 1]))
  {
    var a, b := v.entries[..n + 1], w.entries[..n + 1];
    forall i | 0 <= i < n
      ensures a[i] == v.entries[..n][i] && b[i] == w.entries[..n][i]
    {
    }
  }

  lemma {:induction false} EntriesLastWin(v: Json, w: Json, n: nat, g: Dialect, f: Dialect)
    requires v.Obj? && n <= |v.entries|
    requires forall i | 0 <= i < n :: LastWins(v.entries[i].value, g, f)
    ensures TranslateEntries(v, n, g).None? <==> TranslateEntries(v, n, f).None?
    ensures TranslateEntries(v, n, g).Some? && w.Obj? && |w.entries| == |v.entries|
            && w.entries[..n] == TranslateEntries(v, n, g).value
            && (IsCatalogEntry(v.entries) <==> IsCatalogEntry(w.entries))
            ==> TranslateEntries(w, n, f) == TranslateEntries(v, n, f)
    ensures TranslateEntries(v, n, g).Some? && w.Obj? && |w.entries| == |v.entries|
            && w.entries[..n] == TranslateEntries(v, n, g).value
            ==> Resembles(Obj(v.entries[..n]), Obj(w.entries[..n]))
  {
    hide TranslateField, LastWins, IsCatalogEntry, Resembles;
    if n == 0 {
      NothingResembles(v, w);
    } else {
      var e := v.entries[n - 1];
      EntriesLastWin(v, w, n - 1, g, f);
      FieldLastWins(e.key, e.value, IsCatalogEntry(v.entries), g, f);
      var tg := TranslateEntries(v, n, g);
      if tg.Some? && w.Obj? && |w.entries| == |v.entries| && w.entries[..n] == tg.value {
        assert w.entries[..n - 1] == w.entries[..n][..n - 1] == tg.value[..n - 1];
        assert w.entries[n - 1] == w.entries[..n][n - 1] == tg.value[n - 1];
        OneMoreResembles(v, w, n - 1);
      }
    }
  }

  /** For every JSON tree: translation fails in one dialect exactly when it fails in the other, and translating to one
      dialect and then to another is translating to the other. */
  lemma {:induction false} TranslateLastWins(v: Json, g: Dialect, f: Dialect)
    ensures LastWins(v, g, f)
    decreases v
  {
    hide LastWins, TranslateEntries, TranslateItems;
    match v {
      case Arr(items) =>
        forall i | 0 <= i < |items|
          ensures LastWins(items[i], g, f)
        {
          TranslateLastWins(items[i], g, f);
        }
        ArrLastWins(v, g, f);
      case Obj(entries) =>
        forall i | 0 <= i < |entries|
          ensures LastWins(entries[i].value, g, f)
        {
          TranslateLastWins(entries[i].value, g, f);
        }
        ObjLastWins(v, g, f);
      case _ =>
        ScalarLastWins(v, g, f);
    }
  }

  lemma ScalarLastWins(v: Json, g: Dialect, f: Dialect)
    requires !v.Arr? && !v.Obj?
    ensures LastWins(v, g, f)
  {
  }

  lemma ArrLastWins(v: Json, g: Dialect, f: Dialect)
    requires v.Arr? && forall i | 0 <= i < |v.items| :: LastWins(v.items[i], g, f)
    ensures LastWins(v, g, f)
  {
    hide TranslateItems;
    ItemsLastWin(v, |v.items|, g, f);
    var tg := TranslateItems(v, |v.items|, g);
    if tg.Some? {
      assert tg.value[..|v.items|] == tg.value;
      assert Translate(v, g) == Some(Arr(tg.value));
      assert TranslateItems(Arr(tg.value), |v.items|, f) == TranslateItems(v, |v.items|, f);
    }
  }

  lemma ObjLastWins(v: Json, g: Dialect, f: Dialect)
    requires v.Obj? && forall i | 0 <= i < |v.entries| :: LastWins(v.entries[i].value, g, f)
    ensures LastWins(v, g, f)
  {
    hide TranslateEntries, IsForeign, IsCatalogEntry, Resembles;
    var n := |v.entries|;
    var tg := TranslateEntries(v, n, g);
    if tg.Some? {
      var w := Obj(tg.value);
      assert tg.value[..n] == tg.value && v.entries[..n] == v.entries;
      EntriesLastWin(v, w, n, g, f);
      ResemblingRecords(v, w);
    } else {
      EntriesLastWin(v, v, n, g, f);
    }
  }

  /** The four laws of the two dialects, on every tree that can be translated at all. */
  lemma DialectRoundTrips(v: Json)
    ensures Translate(v, Canonical).None? <==> Translate(v, Legacy).None?
    ensures Translate(v, Canonical).Some? ==>
              var c, l := Translate(v, Canonical).value, Translate(v, Legacy).value;
              && Translate(l, Canonical) == Some(c) && Translate(c, Legacy) == Some(l)
              && Translate(c, Canonical) == Some(c) && Translate(l, Legacy) == Some(l)
  {
    hide Translate;
    TranslateLastWins(v, Canonical, Canonical);
    TranslateLastWins(v, Canonical, Legacy);
    TranslateLastWins(v, Legacy, Canonical);
    TranslateLastWins(v, Legacy, Legacy);
  }
}
