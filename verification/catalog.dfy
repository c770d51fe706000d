/**
 * The model catalog resolver of app/utils/fileUtils.ts: `readLocalModelMeta`
 * and `loadModelList`, which merges the server's model table with the model
 * folders on the device and sorts the result downloaded-first, then by name.
 *
 * Every I/O result is an input: the network state, the directory listing,
 * what each folder's meta file yields, and the answer of the catalog query.
 */
module Catalog {
  import opened Options

  /** One row of the model picker (`FullModelItem`). */
  datatype ModelItem = ModelItem(id: string, name: string, language: string, downloaded: bool)

  /**
   * A parsed meta.json: `null`, or any other JSON value, given by the
   * `String(...)` coercion of each of its properties (a number, string,
   * boolean or array has none of the properties looked up here).
   */
  datatype Json = JsonNull | JsonValue(properties: map<string, string>)

  /** What reading a folder's meta.json comes to. */
  datatype MetaFile =
    | Missing           // the existence check says there is no file
    | Unreadable        // the existence check, the read or JSON.parse threw
    | Parsed(json: Json)

  /** The result of readLocalModelMeta when it is not null. */
  datatype LocalMeta = LocalMeta(id: string, language: string)

  /** A local folder that has usable metadata. */
  datatype LocalModel = LocalModel(folder: string, id: string, language: string, name: string)

  /** A row of the server's `Models` table. */
  datatype ServerRow = ServerRow(id: string, modelLanguage: string, modelName: string)

  // ---------------------------------------------------------------------------
  // Local metadata
  // ---------------------------------------------------------------------------

  /** `String(value[key])`: the coerced property, or "undefined" when it is absent. */
  function Coerced(properties: map<string, string>, key: string): string
  {
    if key in properties then properties[key] else "undefined"
  }

  /**
   * readLocalModelMeta: null when the file is missing or anything on the way
   * throws (including reading a property of a parsed `null`); otherwise the
   * id and language, coerced to strings.
   */
  function ReadLocalModelMeta(file: MetaFile): (meta: Option<LocalMeta>)
    ensures meta.None? <==> file.Missing? || file.Unreadable? || file == Parsed(JsonNull)
    ensures meta.Some? ==> meta.value.id == Coerced(file.json.properties, "id")
    ensures meta.Some? ==> meta.value.language == Coerced(file.json.properties, "language")
  {
    match file
    case Missing => None
    case Unreadable => None
    case Parsed(JsonNull) => None
    case Parsed(JsonValue(properties)) =>
      Some(LocalMeta(Coerced(properties, "id"), Coerced(properties, "language")))
  }

  /** Positions, in increasing order, of the folders whose metadata readLocalModelMeta accepts. */
  function Kept(metas: seq<MetaFile>): (positions: seq<nat>)
    ensures forall a, b :: 0 <= a < b < |positions| ==> positions[a] < positions[b]
    ensures forall j :: 0 <= j < |positions| ==> positions[j] < |metas|
    ensures forall i :: 0 <= i < |metas| ==> (i in positions <==> ReadLocalModelMeta(metas[i]).Some?)
  {
    if metas == [] then []
    else
      var n := |metas| - 1;
      Kept(metas[..n]) + (if ReadLocalModelMeta(metas[n]).Some? then [n] else [])
  }

  /** The local model built from folder `folder` and its accepted metadata. */
  function LocalFrom(folder: string, meta: LocalMeta): LocalModel
  {
    LocalModel(folder, meta.id, meta.language, folder)
  }

  /** The map-then-filter over the folder listing. */
  function LocalModels(folders: seq<string>, metas: seq<MetaFile>): seq<LocalModel>
    requires |metas| == |folders|
  {
    if metas == [] then []
    else
      var n := |metas| - 1;
      var meta := ReadLocalModelMeta(metas[n]);
      LocalModels(folders[..n], metas[..n]) + (if meta.Some? then [LocalFrom(folders[n], meta.value)] else [])
  }

  /**
   * The local models are exactly the folders whose metadata is not null, in
   * listing order, each named after its folder and carrying its metadata.
   */
  lemma {:induction false} LocalModelsSpec(folders: seq<string>, metas: seq<MetaFile>)
    requires |metas| == |folders|
    ensures var locals := LocalModels(folders, metas);
            var kept := Kept(metas);
            && |locals| == |kept|
            && forall j :: 0 <= j < |locals| ==>
                 && ReadLocalModelMeta(metas[kept[j]]).Some?
                 && locals[j] == LocalFrom(folders[kept[j]], ReadLocalModelMeta(metas[kept[j]]).value)
  {
    if metas != [] {
      var n := |metas| - 1;
      LocalModelsSpec(folders[..n], metas[..n]);
      var locals, kept := LocalModels(folders, metas), Kept(metas);
      var prefixLocals, prefixKept := LocalModels(folders[..n], metas[..n]), Kept(metas[..n]);
      assert kept == prefixKept + (if ReadLocalModelMeta(metas[n]).Some? then [n] else []);
      forall j | 0 <= j < |locals|
        ensures ReadLocalModelMeta(metas[kept[j]]).Some?
        ensures locals[j] == LocalFrom(folders[kept[j]], ReadLocalModelMeta(metas[kept[j]]).value)
      {
        if j < |prefixLocals| {
          assert kept[j] == prefixKept[j] && locals[j] == prefixLocals[j];
          assert metas[..n][prefixKept[j]] == metas[kept[j]];
          assert folders[..n][prefixKept[j]] == folders[kept[j]];
        } else {
          assert kept[j] == n;
        }
      }
    }
  }

  // ---------------------------------------------------------------------------
  // The merge
  // ---------------------------------------------------------------------------

  /** A server row as a picker row: downloaded when a local folder carries its name. */
  function ServerItem(row: ServerRow, folders: seq<string>): ModelItem
  {
    ModelItem(row.id, row.modelName, row.modelLanguage, row.modelName in folders)
  }

  /** `serverModels.map(...)`. */
  function ServerItems(rows: seq<ServerRow>, folders: seq<string>): seq<ModelItem>
  {
    seq(|rows|, j requires 0 <= j < |rows| => ServerItem(rows[j], folders))
  }

  /** A local model as a picker row; it is on the device, so downloaded. */
  function LocalItem(local: LocalModel): ModelItem
  {
    ModelItem(local.id, local.name, local.language, true)
  }

  /** `items.some((cm) => cm.id === id)`. */
  predicate HasId(items: seq<ModelItem>, id: string)
  {
    exists j :: 0 <= j < |items| && items[j].id == id
  }

  /**
   * The `forEach` over the local models, in listing order: each is appended
   * unless an entry already in the list, a server row or an earlier
   * appended local model, has its id.
   */
  function MergeLocals(combined: seq<ModelItem>, locals: seq<LocalModel>): seq<ModelItem>
    decreases |locals|
  {
    if locals == [] then combined
    else
      var n := |locals| - 1;
      var merged := MergeLocals(combined, locals[..n]);
      if HasId(merged, locals[n].id) then merged else merged + [LocalItem(locals[n])]
  }

  /**
   * Local model `i` brings a new id: no entry of the list the merge starts
   * from and no earlier local model has it.
   */
  predicate FirstOfId(combined: seq<ModelItem>, locals: seq<LocalModel>, i: nat)
    requires i < |locals|
  {
    !HasId(combined, locals[i].id) && forall i' :: 0 <= i' < i ==> locals[i'].id != locals[i].id
  }

  /** Positions, in increasing order, of the local models that bring a new id. */
  function FirstOfIds(combined: seq<ModelItem>, locals: seq<LocalModel>): (positions: seq<nat>)
    ensures forall a, b :: 0 <= a < b < |positions| ==> positions[a] < positions[b]
    ensures forall j :: 0 <= j < |positions| ==> positions[j] < |locals|
    ensures forall i :: 0 <= i < |locals| ==> (i in positions <==> FirstOfId(combined, locals, i))
    decreases |locals|
  {
    if locals == [] then []
    else
      var n := |locals| - 1;
      assert forall i :: 0 <= i < n ==> FirstOfId(combined, locals[..n], i) == FirstOfId(combined, locals, i);
      FirstOfIds(combined, locals[..n]) + (if FirstOfId(combined, locals, n) then [n] else [])
  }

  /** The picker rows of the local models at `positions`, in that order. */
  function LocalItemsAt(locals: seq<LocalModel>, positions: seq<nat>): seq<ModelItem>
    requires forall j :: 0 <= j < |positions| ==> positions[j] < |locals|
  {
    seq(|positions|, j requires 0 <= j < |positions| => LocalItem(locals[positions[j]]))
  }

  /** After merging, a local model's id is listed exactly when it was already or it is not new. */
  lemma MergeStepListed(combined: seq<ModelItem>, locals: seq<LocalModel>, merged: seq<ModelItem>, n: nat)
    requires n < |locals|
    requires merged == combined + LocalItemsAt(locals[..n], FirstOfIds(combined, locals[..n]))
    requires forall i :: 0 <= i < n ==> HasId(merged, locals[i].id)
    ensures HasId(merged, locals[n].id) <==> !FirstOfId(combined, locals, n)
  {
    var id := locals[n].id;
    var positions := FirstOfIds(combined, locals[..n]);
    if HasId(merged, id) {
      var k :| 0 <= k < |merged| && merged[k].id == id;
      if k < |combined| {
        assert combined[k] == merged[k];
      } else {
        var p := positions[k - |combined|];
        assert merged[k] == LocalItem(locals[..n][p]);
        assert locals[p].id == id;
      }
    } else {
      forall k | 0 <= k < |combined| ensures combined[k].id != id {
        assert merged[k] == combined[k];
      }
    }
  }

  /** Rows picked from a prefix of the local models are the same rows picked from all of them. */
  lemma LocalItemsAtPrefix(locals: seq<LocalModel>, n: nat, positions: seq<nat>)
    requires n <= |locals|
    requires forall j :: 0 <= j < |positions| ==> positions[j] < n
    ensures LocalItemsAt(locals[..n], positions) == LocalItemsAt(locals, positions)
  {
  }

  /** Picking one more position appends its row. */
  lemma LocalItemsAtSnoc(locals: seq<LocalModel>, positions: seq<nat>, n: nat)
    requires n < |locals|
    requires forall j :: 0 <= j < |positions| ==> positions[j] < |locals|
    ensures LocalItemsAt(locals, positions + [n]) == LocalItemsAt(locals, positions) + [LocalItem(locals[n])]
  {
  }

  /** An id listed stays listed when entries are appended. */
  lemma HasIdExtend(items: seq<ModelItem>, more: seq<ModelItem>, id: string)
    requires HasId(items, id)
    ensures HasId(items + more, id)
  {
    var k :| 0 <= k < |items| && items[k].id == id;
    assert (items + more)[k] == items[k];
  }

  /**
   * The merge keeps the list it starts from in front, untouched, and
   * appends, in listing order, exactly the local models that bring a new
   * id: of several local models sharing an id only the first is appended,
   * and none whose id the list already has. Afterwards every local model's
   * id is listed.
   */
  lemma {:induction false} MergeLocalsSpec(combined: seq<ModelItem>, locals: seq<LocalModel>)
    ensures MergeLocals(combined, locals) == combined + LocalItemsAt(locals, FirstOfIds(combined, locals))
    ensures forall i :: 0 <= i < |locals| ==> HasId(MergeLocals(combined, locals), locals[i].id)
    decreases |locals|
  {
    if locals != [] {
      var n := |locals| - 1;
      var prefix := locals[..n];
      MergeLocalsSpec(combined, prefix);
      var merged := MergeLocals(combined, prefix);
      var before := FirstOfIds(combined, prefix);
      LocalItemsAtPrefix(locals, n, before);
      assert forall i :: 0 <= i < n ==> prefix[i] == locals[i];
      MergeStepListed(combined, locals, merged, n);
      var more: seq<ModelItem> := if FirstOfId(combined, locals, n) then [LocalItem(locals[n])] else [];
      assert MergeLocals(combined, locals) == merged + more;
      if FirstOfId(combined, locals, n) {
        LocalItemsAtSnoc(locals, before, n);
      }
      forall i | 0 <= i < |locals|
        ensures HasId(merged + more, locals[i].id)
      {
        if i < n || !FirstOfId(combined, locals, n) {
          HasIdExtend(merged, more, locals[i].id);
        } else {
          assert (merged + more)[|merged|] == LocalItem(locals[n]);
        }
      }
    }
  }

  /** The list before sorting: online the merged catalog, offline the local models alone. */
  function Combined(online: bool, folders: seq<string>, metas: seq<MetaFile>, rows: seq<ServerRow>): seq<ModelItem>
    requires |metas| == |folders|
  {
    var locals := LocalModels(folders, metas);
    if online then MergeLocals(ServerItems(rows, folders), locals)
    else seq(|locals|, j requires 0 <= j < |locals| => LocalItem(locals[j]))
  }

  /**
   * The list before sorting. Online: every server row once, in table order
   * and at the front, downloaded exactly when some local folder (with or
   * without usable metadata) carries its name; behind them, in listing
   * order, the local models that bring an id neither a server row nor an
   * earlier local model has, all downloaded; every local id is listed.
   * Offline: exactly the local models, in listing order, all downloaded.
   */
  lemma CombinedSpec(online: bool, folders: seq<string>, metas: seq<MetaFile>, rows: seq<ServerRow>)
    requires |metas| == |folders|
    ensures var r := Combined(online, folders, metas, rows);
            var locals := LocalModels(folders, metas);
            && (online ==>
                  && |rows| <= |r|
                  && (forall j :: 0 <= j < |rows| ==>
                        r[j] == ModelItem(rows[j].id, rows[j].modelName, rows[j].modelLanguage, rows[j].modelName in folders))
                  && r[|rows|..] == LocalItemsAt(locals, FirstOfIds(ServerItems(rows, folders), locals))
                  && (forall i :: 0 <= i < |locals| ==> HasId(r, locals[i].id)))
            && (!online ==>
                  && |r| == |locals|
                  && forall j :: 0 <= j < |r| ==>
                       r[j] == ModelItem(locals[j].id, locals[j].folder, locals[j].language, true))
  {
    if online {
      var server := ServerItems(rows, folders);
      MergeLocalsSpec(server, LocalModels(folders, metas));
      var r := Combined(online, folders, metas, rows);
      forall j | 0 <= j < |rows|
        ensures r[j] == ModelItem(rows[j].id, rows[j].modelName, rows[j].modelLanguage, rows[j].modelName in folders)
      {
        assert r[j] == server[j];
      }
    }
  }

  /**
   * Offline, the list before sorting holds one downloaded row per folder
   * whose meta file exists and parses to a JSON value other than `null`, in
   * listing order, named after the folder and carrying the id and language
   * that file's properties coerce to.
   */
  lemma OfflineCatalog(folders: seq<string>, metas: seq<MetaFile>)
    requires |metas| == |folders|
    ensures var r := Combined(false, folders, metas, []);
            var kept := Kept(metas);
            && (forall i :: 0 <= i < |metas| ==> (i in kept <==> metas[i].Parsed? && metas[i].json.JsonValue?))
            && |r| == |kept|
            && forall j :: 0 <= j < |r| ==>
                 && metas[kept[j]].Parsed? && metas[kept[j]].json.JsonValue?
                 && var properties := metas[kept[j]].json.properties;
                    r[j] == ModelItem(Coerced(properties, "id"), folders[kept[j]], Coerced(properties, "language"), true)
  {
    LocalModelsSpec(folders, metas);
  }

  // ---------------------------------------------------------------------------
  // The sort
  // ---------------------------------------------------------------------------

  /** `localeCompare(a, b) <= 0`, taken as lexicographic order on characters. */
  predicate NameLe(a: string, b: string)
  {
    a == [] || (b != [] && (a[0] < b[0] || (a[0] == b[0] && NameLe(a[1..], b[1..]))))
  }

  /** Any two names are comparable. */
  lemma {:induction false} NameLeTotal(a: string, b: string)
    ensures NameLe(a, b) || NameLe(b, a)
  {
    if a != [] && b != [] && a[0] == b[0] {
      NameLeTotal(a[1..], b[1..]);
    }
  }

  /** The name order is transitive. */
  lemma {:induction false} NameLeTransitive(a: string, b: string, c: string)
    requires NameLe(a, b) && NameLe(b, c)
    ensures NameLe(a, c)
  {
    if a != [] && b != [] && c != [] && a[0] == b[0] && b[0] == c[0] {
      NameLeTransitive(a[1..], b[1..], c[1..]);
    }
  }

  /** The sort's comparator says `a` may precede `b`: downloaded first, then by name. */
  predicate ItemLe(a: ModelItem, b: ModelItem)
  {
    (a.downloaded && !b.downloaded) || (a.downloaded == b.downloaded && NameLe(a.name, b.name))
  }

  /** Every entry may precede every later one. */
  predicate SortedItems(s: seq<ModelItem>)
  {
    forall i, j :: 0 <= i < j < |s| ==> ItemLe(s[i], s[j])
  }

  /** Inserts `x` before the first entry it may precede. */
  function Insert(x: ModelItem, s: seq<ModelItem>): seq<ModelItem>
  {
    if s == [] then [x]
    else if ItemLe(x, s[0]) then [x] + s
    else [s[0]] + Insert(x, s[1..])
  }

  /** Insertion adds exactly `x`. */
  lemma {:induction false} InsertPermutes(x: ModelItem, s: seq<ModelItem>)
    ensures multiset(Insert(x, s)) == multiset(s) + multiset{x}
  {
    if s != [] && !ItemLe(x, s[0]) {
      InsertPermutes(x, s[1..]);
      assert s == [s[0]] + s[1..];
    }
  }

  /** Insertion keeps a sorted list sorted. */
  lemma {:induction false} InsertSorted(x: ModelItem, s: seq<ModelItem>)
    requires SortedItems(s)
    ensures SortedItems(Insert(x, s))
  {
    if s == [] {
    } else if ItemLe(x, s[0]) {
      var r := [x] + s;
      forall i, j | 0 <= i < j < |r| ensures ItemLe(r[i], r[j]) {
        if i == 0 && j > 1 {
          ItemLeTransitive(x, s[0], s[j - 1]);
        }
      }
    } else {
      InsertSorted(x, s[1..]);
      InsertPermutes(x, s[1..]);
      var rest := Insert(x, s[1..]);
      ItemLeTotal(x, s[0]);
      var r := [s[0]] + rest;
      forall j | 0 <= j < |rest| ensures ItemLe(s[0], rest[j]) {
        assert rest[j] in multiset(rest);
        if rest[j] != x {
          assert rest[j] in multiset(s[1..]);
          var k :| 0 <= k < |s[1..]| && s[1..][k] == rest[j];
          assert s[k + 1] == rest[j];
        }
      }
      forall i, j | 0 <= i < j < |r| ensures ItemLe(r[i], r[j]) {
        if i == 0 {
          assert r[j] == rest[j - 1];
        } else {
          assert r[i] == rest[i - 1] && r[j] == rest[j - 1];
        }
      }
    }
  }

  /** Any two items are comparable. */
  lemma ItemLeTotal(a: ModelItem, b: ModelItem)
    ensures ItemLe(a, b) || ItemLe(b, a)
  {
    NameLeTotal(a.name, b.name);
  }

  /** The comparator's order is transitive. */
  lemma ItemLeTransitive(a: ModelItem, b: ModelItem, c: ModelItem)
    requires ItemLe(a, b) && ItemLe(b, c)
    ensures ItemLe(a, c)
  {
    if a.downloaded == b.downloaded == c.downloaded {
      NameLeTransitive(a.name, b.name, c.name);
    }
  }

  /**
   * `combined.sort(...)`: a permutation of its input in which every
   * downloaded entry precedes every entry that is not, and names ascend
   * within each group.
   */
  function SortItems(s: seq<ModelItem>): (r: seq<ModelItem>)
    ensures multiset(r) == multiset(s)
    ensures SortedItems(r)
    ensures forall i, j :: 0 <= i < j < |r| ==> r[i].downloaded || !r[j].downloaded
    ensures forall i, j :: 0 <= i < j < |r| && r[i].downloaded == r[j].downloaded ==> NameLe(r[i].name, r[j].name)
  {
    if s == [] then []
    else
      assert s == [s[0]] + s[1..];
      InsertPermutes(s[0], SortItems(s[1..]));
      InsertSorted(s[0], SortItems(s[1..]));
      Insert(s[0], SortItems(s[1..]))
  }

  // ---------------------------------------------------------------------------
  // loadModelList
  // ---------------------------------------------------------------------------

  /** What `NetInfo.fetch` resolves to; an unknown reachability is given as false. */
  datatype NetState = NetState(isConnected: bool, isInternetReachable: bool)

  /**
   * loadModelList. `network` is the network state, or None when fetching it
   * threw; `listing` is the models directory, or None when reading it threw;
   * `metas[i]` is what the meta file of folder i yields; `query` is the
   * answer of the catalog query, or None when it returned an error. Any
   * thrown error is caught and the function returns undefined (None);
   * otherwise it returns the sorted list.
   */
  method LoadModelList(network: Option<NetState>, listing: Option<seq<string>>,
                       metas: seq<MetaFile>, query: Option<seq<ServerRow>>)
    returns (models: Option<seq<ModelItem>>)
    requires listing.Some? ==> |metas| == |listing.value|
    ensures models.None? <==>
              || network.None? || listing.None?
              || (network.value.isConnected && network.value.isInternetReachable && query.None?)
    ensures models.Some? ==>
              var online := network.value.isConnected && network.value.isInternetReachable;
              var rows := if online then query.value else [];
              && models.value == SortItems(Combined(online, listing.value, metas, rows))
              && multiset(models.value) == multiset(Combined(online, listing.value, metas, rows))
              && SortedItems(models.value)
  {
    if network.None? {
      return None;
    }
    var netState := network.value;
    var isOnline := netState.isConnected && netState.isInternetReachable;
    if listing.None? {
      return None;
    }
    var localFolders := listing.value;
    var localModels := LocalModels(localFolders, metas);
    var combined: seq<ModelItem> := [];
    if isOnline {
      if query.None? {
        return None;
      }
      var serverModels := query.value;
      combined := ServerItems(serverModels, localFolders);
      var i := 0;
      while i < |localModels|
        invariant 0 <= i <= |localModels|
        invariant combined == MergeLocals(ServerItems(serverModels, localFolders), localModels[..i])
      {
        var lm := localModels[i];
        assert localModels[..i + 1][..i] == localModels[..i];
        if !HasId(combined, lm.id) {
          combined := combined + [LocalItem(lm)];
        }
        i := i + 1;
      }
      assert localModels[..i] == localModels;
    } else {
      combined := seq(|localModels|, j requires 0 <= j < |localModels| => LocalItem(localModels[j]));
    }
    combined := SortItems(combined);
    models := Some(combined);
  }
}
