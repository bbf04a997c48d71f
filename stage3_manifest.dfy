/**
 * The derivations of the asset-manifest page (src/pages/Stage3ManifestPage.tsx):
 * grouping the assets by type, the per-type counts, the type filter, the
 * placeholder warnings and the fields shown on each asset card.
 */
module Stage3Manifest {
  import opened Types
  import opened Sequences
  import opened Folds
  import Text

  function HasType(t: string): Asset -> bool {
    (a: Asset) => a.assetType == t
  }

  /** `assets.filter(a => a.type === t)`: the assets of type `t`, in input order. */
  function OfType(assets: seq<Asset>, t: string): (ofType: seq<Asset>)
    ensures |ofType| <= |assets|
  {
    Filter(assets, HasType(t))
  }

  /** The filtered list holds exactly the assets of type `t`, in their input order. */
  lemma OfTypeMembers(assets: seq<Asset>, t: string)
    ensures forall a :: a in OfType(assets, t) <==> a in assets && a.assetType == t
    ensures IsSubsequence(OfType(assets, t), assets)
  {
    FilterMembers(assets, HasType(t));
    FilterIsSubsequence(assets, HasType(t));
  }

  lemma OfTypeSnoc(assets: seq<Asset>, asset: Asset, t: string)
    ensures OfType(assets + [asset], t) == OfType(assets, t) + (if asset.assetType == t then [asset] else [])
  {
    FilterAppend(assets, [asset], HasType(t));
    assert [asset][1..] == [];
  }

  /**
   * The types of the assets, each once, in the order in which they first
   * occur: the order in which the grouping adds keys to its dictionary.
   */
  function TypesInOrder(assets: seq<Asset>): (types: seq<string>)
    ensures Distinct(types)
  {
    if assets == [] then []
    else
      var earlier := TypesInOrder(assets[..|assets| - 1]);
      var t := assets[|assets| - 1].assetType;
      if t in earlier then earlier else earlier + [t]
  }

  lemma TypesInOrderSnoc(assets: seq<Asset>, asset: Asset)
    ensures TypesInOrder(assets + [asset]) ==
            if asset.assetType in TypesInOrder(assets) then TypesInOrder(assets) else TypesInOrder(assets) + [asset.assetType]
  {
    assert (assets + [asset])[..|assets|] == assets;
  }

  /** A type is listed exactly when some asset has it, that is, when its bucket is not empty. */
  lemma {:induction false} TypesInOrderMembers(assets: seq<Asset>, t: string)
    ensures t in TypesInOrder(assets) <==> OfType(assets, t) != []
  {
    if assets != [] {
      var earlier, asset := assets[..|assets| - 1], assets[|assets| - 1];
      assert assets == earlier + [asset];
      TypesInOrderMembers(earlier, t);
      TypesInOrderSnoc(earlier, asset);
      OfTypeSnoc(earlier, asset, t);
    }
  }

  /**
   * `keys` and `buckets` are the dictionary that grouping `assets` builds:
   * its keys in insertion order, and under each type the assets of that type.
   */
  ghost predicate IsGrouping(assets: seq<Asset>, keys: seq<string>, buckets: map<string, seq<Asset>>) {
    && keys == TypesInOrder(assets)
    && (forall t :: t in buckets <==> t in keys)
    && (forall t :: (if t in buckets then buckets[t] else []) == OfType(assets, t))
  }

  /** One step of the reduce keeps the accumulator a grouping of the assets seen so far. */
  lemma GroupingStep(seen: seq<Asset>, asset: Asset, keys: seq<string>, buckets: map<string, seq<Asset>>)
    requires IsGrouping(seen, keys, buckets)
    ensures IsGrouping(seen + [asset],
                       if asset.assetType in buckets then keys else keys + [asset.assetType],
                       buckets[asset.assetType := OfType(seen, asset.assetType) + [asset]])
  {
    KeysStep(seen, asset, keys, buckets);
    BucketsStep(seen, asset, buckets);
  }

  /** The keys after one step: a new type is appended, a known one changes nothing. */
  lemma KeysStep(seen: seq<Asset>, asset: Asset, keys: seq<string>, buckets: map<string, seq<Asset>>)
    requires keys == TypesInOrder(seen)
    requires forall u :: u in buckets <==> u in keys
    ensures (if asset.assetType in buckets then keys else keys + [asset.assetType]) == TypesInOrder(seen + [asset])
    ensures forall u :: u in buckets || u == asset.assetType <==>
                        u in (if asset.assetType in buckets then keys else keys + [asset.assetType])
  {
    TypesInOrderSnoc(seen, asset);
  }

  /** The buckets after one step: the asset is appended to its own type's bucket only. */
  lemma BucketsStep(seen: seq<Asset>, asset: Asset, buckets: map<string, seq<Asset>>)
    requires forall u :: (if u in buckets then buckets[u] else []) == OfType(seen, u)
    ensures forall u :: (if u in buckets[asset.assetType := OfType(seen, asset.assetType) + [asset]]
                         then buckets[asset.assetType := OfType(seen, asset.assetType) + [asset]][u] else []) ==
                        OfType(seen + [asset], u)
  {
    var t := asset.assetType;
    var buckets' := buckets[t := OfType(seen, t) + [asset]];
    forall u ensures (if u in buckets' then buckets'[u] else []) == OfType(seen + [asset], u) {
      OfTypeSnoc(seen, asset, u);
      if u != t {
        assert (if u in buckets' then buckets'[u] else []) == (if u in buckets then buckets[u] else []);
      }
    }
  }

  /**
   * The step as the reduce writes it, an empty bucket opened for an unseen
   * type and the asset then pushed onto its type's bucket, keeps the grouping.
   */
  lemma PushStep(seen: seq<Asset>, asset: Asset, keys: seq<string>, buckets: map<string, seq<Asset>>)
    requires IsGrouping(seen, keys, buckets)
    ensures var t := asset.assetType;
            var ready := if t in buckets then buckets else buckets[t := []];
            IsGrouping(seen + [asset], if t in buckets then keys else keys + [t], ready[t := ready[t] + [asset]])
  {
    var t := asset.assetType;
    var ready := if t in buckets then buckets else buckets[t := []];
    var bucket := OfType(seen, t);
    assert (if t in buckets then buckets[t] else []) == bucket;
    GroupingStep(seen, asset, keys, buckets);
    OpenThenPush(buckets, t, bucket, asset);
  }

  /** Opening an empty bucket when there is none and then pushing is setting the bucket to the old contents plus the asset. */
  lemma OpenThenPush(buckets: map<string, seq<Asset>>, t: string, bucket: seq<Asset>, asset: Asset)
    requires (if t in buckets then buckets[t] else []) == bucket
    ensures var ready := if t in buckets then buckets else buckets[t := []];
            ready[t := ready[t] + [asset]] == buckets[t := bucket + [asset]]
  {
    if t !in buckets {
      var ready := buckets[t := []];
      assert ready[t := ready[t] + [asset]] == buckets[t := bucket + [asset]];
    }
  }

  /**
   * The `assetsByType` reduce: walks the assets once, opening an empty bucket
   * the first time a type is seen and appending each asset to its type's
   * bucket. `keys` are the dictionary's keys in insertion order.
   */
  method GroupByType(assets: seq<Asset>) returns (keys: seq<string>, buckets: map<string, seq<Asset>>)
    ensures keys == TypesInOrder(assets)
    ensures forall t :: t in buckets <==> t in keys
    ensures forall t :: (if t in buckets then buckets[t] else []) == OfType(assets, t)
  {
    keys, buckets := [], map[];
    for i := 0 to |assets|
      invariant IsGrouping(assets[..i], keys, buckets)
    {
      var asset := assets[i];
      assert assets[..i + 1] == assets[..i] + [asset];
      PushStep(assets[..i], asset, keys, buckets);
      if asset.assetType !in buckets {
        buckets := buckets[asset.assetType := []];
        keys := keys + [asset.assetType];
      }
      buckets := buckets[asset.assetType := buckets[asset.assetType] + [asset]];
    }
    assert assets[..|assets|] == assets;
  }

  /** The size of each type's bucket, as a function of the type. */
  function BucketSize(assets: seq<Asset>): string -> int {
    (t: string) => |OfType(assets, t)|
  }

  /** Adding one asset grows the bucket of its type by one and no other bucket. */
  lemma {:induction false} BucketSizesSnoc(assets: seq<Asset>, asset: Asset, types: seq<string>)
    requires Distinct(types)
    ensures SumOf(types, BucketSize(assets + [asset])) ==
            SumOf(types, BucketSize(assets)) + (if asset.assetType in types then 1 else 0)
  {
    if types != [] {
      var earlier, t := types[..|types| - 1], types[|types| - 1];
      assert types == earlier + [t];
      BucketSizesSnoc(assets, asset, earlier);
      FilterAppend(assets, [asset], HasType(t));
      assert asset.assetType in types <==> asset.assetType in earlier || asset.assetType == t;
    }
  }

  /** The buckets of the grouping together hold every asset exactly once. */
  lemma {:induction false} BucketSizesTotal(assets: seq<Asset>)
    ensures SumOf(TypesInOrder(assets), BucketSize(assets)) == |assets|
  {
    if assets != [] {
      var earlier, asset := assets[..|assets| - 1], assets[|assets| - 1];
      assert assets == earlier + [asset];
      var types, t := TypesInOrder(earlier), asset.assetType;
      BucketSizesTotal(earlier);
      BucketSizesSnoc(earlier, asset, types);
      TypesInOrderSnoc(earlier, asset);
      if t !in types {
        NewTypeBucket(earlier, asset);
      }
    }
  }

  /** The first asset of a type opens a bucket holding just that asset. */
  lemma NewTypeBucket(earlier: seq<Asset>, asset: Asset)
    requires asset.assetType !in TypesInOrder(earlier)
    ensures SumOf(TypesInOrder(earlier) + [asset.assetType], BucketSize(earlier + [asset])) ==
            SumOf(TypesInOrder(earlier), BucketSize(earlier + [asset])) + 1
  {
    var types, t := TypesInOrder(earlier), asset.assetType;
    assert (types + [t])[..|types|] == types;
    TypesInOrderMembers(earlier, t);
    OfTypeSnoc(earlier, asset, t);
  }

  /** Buckets of distinct types together hold at most all the assets. */
  lemma {:induction false} BucketSizesAtMost(assets: seq<Asset>, types: seq<string>)
    requires Distinct(types)
    ensures SumOf(types, BucketSize(assets)) <= |assets|
  {
    if assets == [] {
      SumOfBounds(types, BucketSize(assets), 0, 0);
    } else {
      var earlier, asset := assets[..|assets| - 1], assets[|assets| - 1];
      assert assets == earlier + [asset];
      BucketSizesAtMost(earlier, types);
      BucketSizesSnoc(earlier, asset, types);
    }
  }

  /** The types counted on the page's five metric cards. */
  const CardTypes: seq<string> := ["db_connector", "integration_flow", "http_listener", "rest_endpoint", "document_type"]

  /** The five metric cards together never count more assets than the manifest holds. */
  lemma CardCountsWithinTotal(assets: seq<Asset>)
    ensures SumOf(CardTypes, BucketSize(assets)) <= |assets|
  {
    BucketSizesAtMost(assets, CardTypes);
  }

  /**
   * The assets listed for the selected type button: all of them for `all`,
   * otherwise `assetsByType[selectedType] || []`.
   */
  function SelectedAssets(assets: seq<Asset>, buckets: map<string, seq<Asset>>, selectedType: string): (shown: seq<Asset>)
    requires forall t :: (if t in buckets then buckets[t] else []) == OfType(assets, t)
    ensures selectedType == "all" ==> shown == assets
    ensures selectedType != "all" ==> shown == OfType(assets, selectedType)
  {
    if selectedType == "all" then assets
    else if selectedType in buckets then buckets[selectedType]
    else []
  }

  const Placeholder: string := "CHANGE_ME"

  /** `JSON.stringify(asset).includes('CHANGE_ME')`, with the serialisation given as `stringify`. */
  function HasWarning(asset: Asset, stringify: Asset -> string): (flagged: bool)
    ensures flagged <==> exists p: nat :: Text.OccursAt(stringify(asset), Placeholder, p)
  {
    Text.IncludesIffOccurs(stringify(asset), Placeholder);
    Text.Includes(stringify(asset), Placeholder)
  }

  /** `assets.some(...)`: whether any asset's serialisation holds the placeholder. */
  function HasConfigWarnings(assets: seq<Asset>, stringify: Asset -> string): (warn: bool)
    ensures warn <==> exists i :: 0 <= i < |assets| && HasWarning(assets[i], stringify)
  {
    if assets == [] then false
    else HasWarning(assets[0], stringify) || HasConfigWarnings(assets[1..], stringify)
  }

  /** The page shows its warning banner exactly when the placeholder occurs in some asset's serialisation. */
  lemma ConfigWarningsIffPlaceholder(assets: seq<Asset>, stringify: Asset -> string)
    ensures HasConfigWarnings(assets, stringify) <==>
            exists i, p: nat :: 0 <= i < |assets| && Text.OccursAt(stringify(assets[i]), Placeholder, p)
  {
    forall i | 0 <= i < |assets|
      ensures HasWarning(assets[i], stringify) <==> exists p: nat :: Text.OccursAt(stringify(assets[i]), Placeholder, p)
    {
      Text.IncludesIffOccurs(stringify(assets[i]), Placeholder);
    }
  }

  /** Whatever type is selected, a listed asset flagged "Config needed" comes with the banner. */
  lemma FlaggedCardImpliesBanner(assets: seq<Asset>, buckets: map<string, seq<Asset>>, selectedType: string,
                                 stringify: Asset -> string, asset: Asset)
    requires forall t :: (if t in buckets then buckets[t] else []) == OfType(assets, t)
    requires asset in SelectedAssets(assets, buckets, selectedType) && HasWarning(asset, stringify)
    ensures HasConfigWarnings(assets, stringify)
  {
    FilterMembers(assets, HasType(selectedType));
    var i :| 0 <= i < |assets| && assets[i] == asset;
  }

  const HiddenKeys: seq<string> := ["type", "name", "description"]

  const MaxShownFields := 6

  /** `typeof value === 'object'`: true of null, of arrays and of objects. */
  predicate IsObjectTyped(value: Json) {
    value.JNull? || value.JArray? || value.JObject?
  }

  /** A property the asset card lists: not one of the three shown elsewhere, and not object-valued. */
  predicate IsShownEntry(entry: (string, Json)) {
    entry.0 !in HiddenKeys && !IsObjectTyped(entry.1)
  }

  /**
   * The properties listed on an asset card: the asset's entries filtered by
   * IsShownEntry, then `.slice(0, 6)`, that is, the first six eligible entries.
   */
  function ShownFields(asset: Asset): (shown: seq<(string, Json)>)
    ensures |shown| <= MaxShownFields
    ensures forall e :: e in shown ==> e in asset.entries && IsShownEntry(e)
    ensures IsSubsequence(shown, asset.entries)
    ensures forall e :: e in asset.entries && IsShownEntry(e) && e !in shown ==> |shown| == MaxShownFields
    ensures shown <= Filter(asset.entries, IsShownEntry)
    ensures |shown| == if |Filter(asset.entries, IsShownEntry)| < MaxShownFields
                       then |Filter(asset.entries, IsShownEntry)| else MaxShownFields
  {
    var candidates := Filter(asset.entries, IsShownEntry);
    ShownCandidates(asset.entries);
    FilterIsSubsequence(asset.entries, IsShownEntry);
    if |candidates| <= MaxShownFields then candidates
    else
      SubsequencePrefix(candidates, asset.entries, MaxShownFields);
      PrefixMembers(candidates, MaxShownFields);
      candidates[..MaxShownFields]
  }

  /** The entries that pass IsShownEntry are exactly the shown-eligible entries. */
  lemma ShownCandidates(entries: seq<(string, Json)>)
    ensures forall e :: e in Filter(entries, IsShownEntry) <==> e in entries && IsShownEntry(e)
  {
    FilterMembers(entries, IsShownEntry);
  }

  /** `s.replace(/_/g, ' ')`: the label of a type button or property name. */
  function ReplaceUnderscores(s: string): (caption: string)
    ensures |caption| == |s|
    ensures forall i :: 0 <= i < |s| ==> caption[i] == (if s[i] == '_' then ' ' else s[i])
    ensures '_' !in caption
  {
    if s == [] then [] else [if s[0] == '_' then ' ' else s[0]] + ReplaceUnderscores(s[1..])
  }
}
