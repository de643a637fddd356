/**
 * Scene import merging: each scene document may import others by URL; the
 * imported documents are merged into one root before the importing
 * document, depth first, with a stack of URLs guarding against cycles.
 *
 * YAML parsing, URL resolution and the rewriting of texture, source and
 * font URLs are not modelled; they enter as uninterpreted functions.
 */
module Importing {
  import opened Wrappers
  import opened Urls
  import Scenes

  /** A YAML node; a key that is absent altogether is an Option.None. */
  datatype Node =
    | Null
    | Scalar(value: string)
    | Sequence(items: seq<Node>)
    | Map(entries: seq<(string, Node)>)

  // ---------------------------------------------------------------------
  // Map entries

  /** The value of the first entry with this key. */
  function Lookup(es: seq<(string, Node)>, key: string): Option<Node>
  {
    if es == [] then None
    else if es[0].0 == key then Some(es[0].1)
    else Lookup(es[1..], key)
  }

  /** Lookup finds nothing iff no entry has the key, and otherwise the value of the first entry that has it. */
  lemma {:induction false} LookupSpec(es: seq<(string, Node)>, key: string)
    ensures Lookup(es, key).None? <==> forall i :: 0 <= i < |es| ==> es[i].0 != key
    ensures Lookup(es, key).Some? ==> exists i :: 0 <= i < |es| && es[i] == (key, Lookup(es, key).value)
                                                 && forall j :: 0 <= j < i ==> es[j].0 != key
  {
    if es != [] && es[0].0 != key {
      LookupSpec(es[1..], key);
      assert forall i :: 1 <= i < |es| ==> es[i] == es[1..][i - 1];
      if Lookup(es, key).Some? {
        var i :| 0 <= i < |es[1..]| && es[1..][i] == (key, Lookup(es, key).value)
                 && forall j :: 0 <= j < i ==> es[1..][j].0 != key;
        assert es[i + 1] == es[1..][i];
      }
    } else if es != [] {
      assert es[0] == (key, Lookup(es, key).value);
    }
  }

  /** node[key] on a const node: a map entry, and nothing for a node that is not a map. */
  function Get(n: Node, key: string): Option<Node>
  {
    if n.Map? then Lookup(n.entries, key) else None
  }

  function EntriesOf(n: Node): seq<(string, Node)>
  {
    if n.Map? then n.entries else []
  }

  function Keys(es: seq<(string, Node)>): set<string>
  {
    if es == [] then {} else {es[0].0} + Keys(es[1..])
  }

  predicate DistinctKeys(es: seq<(string, Node)>)
  {
    forall i, j :: 0 <= i < j < |es| ==> es[i].0 != es[j].0
  }

  /** Assignment through node[key]: overwrite the first entry with this key, or append a new one. */
  function SetKey(es: seq<(string, Node)>, key: string, v: Node): seq<(string, Node)>
  {
    if es == [] then [(key, v)]
    else if es[0].0 == key then [(key, v)] + es[1..]
    else [es[0]] + SetKey(es[1..], key, v)
  }

  /** node.remove(key): drop the first entry with this key. */
  function RemoveKey(es: seq<(string, Node)>, key: string): seq<(string, Node)>
  {
    if es == [] then []
    else if es[0].0 == key then es[1..]
    else [es[0]] + RemoveKey(es[1..], key)
  }

  lemma {:induction false} LookupSetKey(es: seq<(string, Node)>, key: string, v: Node, k: string)
    ensures Lookup(SetKey(es, key, v), k) == if k == key then Some(v) else Lookup(es, k)
  {
    if es != [] && es[0].0 != key {
      LookupSetKey(es[1..], key, v, k);
      assert SetKey(es, key, v)[1..] == SetKey(es[1..], key, v);
    }
  }

  lemma {:induction false} KeysSetKey(es: seq<(string, Node)>, key: string, v: Node)
    ensures Keys(SetKey(es, key, v)) == Keys(es) + {key}
  {
    if es != [] && es[0].0 != key {
      KeysSetKey(es[1..], key, v);
      assert SetKey(es, key, v)[1..] == SetKey(es[1..], key, v);
    } else if es != [] {
      assert SetKey(es, key, v)[1..] == es[1..];
    }
  }

  lemma {:induction false} KeysAppend(es: seq<(string, Node)>, e: (string, Node))
    ensures Keys(es + [e]) == Keys(es) + {e.0}
  {
    if es != [] {
      assert (es + [e])[1..] == es[1..] + [e];
      KeysAppend(es[1..], e);
    }
  }

  /** Removing a key leaves the lookup of every other key as it was. */
  lemma {:induction false} LookupRemoveOther(es: seq<(string, Node)>, key: string, k: string)
    requires k != key
    ensures Lookup(RemoveKey(es, key), k) == Lookup(es, k)
  {
    if es != [] && es[0].0 != key {
      LookupRemoveOther(es[1..], key, k);
      assert RemoveKey(es, key)[1..] == RemoveKey(es[1..], key);
    }
  }

  /** With distinct keys, a removed key is absent afterwards. */
  lemma {:induction false} LookupRemoved(es: seq<(string, Node)>, key: string)
    requires DistinctKeys(es)
    ensures Lookup(RemoveKey(es, key), key).None?
  {
    if es != [] {
      var rest := es[1..];
      assert DistinctKeys(rest) by {
        forall i, j | 0 <= i < j < |rest| ensures rest[i].0 != rest[j].0 {
          assert rest[i] == es[i + 1] && rest[j] == es[j + 1];
        }
      }
      if es[0].0 == key {
        forall i | 0 <= i < |rest| ensures rest[i].0 != key {
          assert rest[i] == es[i + 1];
        }
        LookupSpec(rest, key);
      } else {
        LookupRemoved(rest, key);
        assert RemoveKey(es, key)[1..] == RemoveKey(rest, key);
      }
    }
  }

  lemma {:induction false} LookupAppend(es: seq<(string, Node)>, e: (string, Node), k: string)
    ensures Lookup(es + [e], k) == if Lookup(es, k).Some? then Lookup(es, k)
                                   else if e.0 == k then Some(e.1) else None
  {
    if es != [] {
      assert (es + [e])[1..] == es[1..] + [e];
      LookupAppend(es[1..], e, k);
    }
  }

  // ---------------------------------------------------------------------
  // mergeMapFields

  /**
   * The target after merging the first k entries of the import map. A key
   * absent from the target gets the import's value; a present null, scalar
   * or sequence is overwritten; a present map is merged into when the
   * import's value is a map and overwritten otherwise. Indexing a null
   * target turns it into a map.
   */
  function MergePrefix(target: Node, imp: Node, k: nat): (r: Node)
    requires imp.Map? && k <= |imp.entries| && (target.Null? || target.Map?)
    ensures r.Null? || r.Map?
    decreases imp, 1, k
  {
    if k == 0 then target
    else
      var acc := MergePrefix(target, imp, k - 1);
      var entry := imp.entries[k - 1];
      assert entry in imp.entries;
      var es := EntriesOf(acc);
      Map(SetKey(es, entry.0, Merged(Lookup(es, entry.0), entry.1)))
  }

  /** The value a key ends up with: an absent key takes the source value, a present one merges with it. */
  function Merged(dest: Option<Node>, source: Node): Node
    decreases source, 3, 0
  {
    match dest
    case None => source
    case Some(d) => MergeValue(d, source)
  }

  /** The value a present key ends up with: maps merge, anything else is overwritten. */
  function MergeValue(dest: Node, source: Node): Node
    decreases source, 2, 0
  {
    if dest.Map? && source.Map? then MergePrefix(dest, source, |source.entries|) else source
  }

  /** Importer::mergeMapFields(target, import), for an import that is a map. */
  function MergeMapFields(target: Node, imp: Node): (r: Node)
    requires imp.Map? && (target.Null? || target.Map?)
    ensures Keys(EntriesOf(r)) == Keys(EntriesOf(target)) + Keys(imp.entries)
    ensures r.Map? <==> target.Map? || imp.entries != []
  {
    MergePrefixKeys(target, imp, |imp.entries|);
    assert imp.entries[..|imp.entries|] == imp.entries;
    MergePrefix(target, imp, |imp.entries|)
  }

  /**
   * After merging, a key the import does not have keeps the target's value;
   * a key only the import has gets the import's value; a key both have gets
   * the merge of the two values.
   */
  lemma {:induction false} MergePrefixLookup(target: Node, imp: Node, k: nat, key: string)
    requires imp.Map? && k <= |imp.entries| && (target.Null? || target.Map?)
    requires DistinctKeys(imp.entries)
    ensures Get(MergePrefix(target, imp, k), key) ==
      match Lookup(imp.entries[..k], key)
      case None => Get(target, key)
      case Some(v) => Some(Merged(Get(target, key), v))
  {
    if k > 0 {
      MergePrefixLookup(target, imp, k - 1, key);
      var acc := MergePrefix(target, imp, k - 1);
      var entry := imp.entries[k - 1];
      var es := EntriesOf(acc);
      assert imp.entries[..k] == imp.entries[..k - 1] + [entry];
      LookupAppend(imp.entries[..k - 1], entry, key);
      LookupSetKey(es, entry.0, Merged(Lookup(es, entry.0), entry.1), key);
      if entry.0 == key {
        var pre := imp.entries[..k - 1];
        forall i | 0 <= i < |pre| ensures pre[i].0 != key {
          assert pre[i] == imp.entries[i];
        }
        LookupSpec(pre, key);
      }
    }
  }

  /** The merged map's keys are the target's keys and the import's keys. */
  lemma {:induction false} MergePrefixKeys(target: Node, imp: Node, k: nat)
    requires imp.Map? && k <= |imp.entries| && (target.Null? || target.Map?)
    ensures Keys(EntriesOf(MergePrefix(target, imp, k))) == Keys(EntriesOf(target)) + Keys(imp.entries[..k])
    ensures MergePrefix(target, imp, k).Map? <==> target.Map? || k > 0
  {
    if k == 0 {
      assert imp.entries[..k] == [];
    } else {
      MergePrefixKeys(target, imp, k - 1);
      var acc := MergePrefix(target, imp, k - 1);
      var entry := imp.entries[k - 1];
      var es := EntriesOf(acc);
      var v := Merged(Lookup(es, entry.0), entry.1);
      var pre := imp.entries[..k - 1];
      assert imp.entries[..k] == pre + [entry];
      calc {
        Keys(EntriesOf(MergePrefix(target, imp, k)));
        Keys(SetKey(es, entry.0, v));
        { KeysSetKey(es, entry.0, v); }
        Keys(es) + {entry.0};
        Keys(EntriesOf(target)) + (Keys(pre) + {entry.0});
        { KeysAppend(pre, entry); }
        Keys(EntriesOf(target)) + Keys(imp.entries[..k]);
      }
    }
  }

  /**
   * The document merged last takes precedence: every value it gives that is
   * not a map replaces whatever the target held, a map value is merged into a
   * target map, and every key it lacks keeps the target's value.
   */
  lemma MergeLaterWins(target: Node, imp: Node, key: string)
    requires imp.Map? && (target.Null? || target.Map?) && DistinctKeys(imp.entries)
    ensures var r := MergeMapFields(target, imp);
      var v := Get(imp, key);
      var d := Get(target, key);
      && (v.Some? && !v.value.Map? ==> Get(r, key) == v)
      && (v.Some? && v.value.Map? && d.Some? && d.value.Map? ==> Get(r, key) == Some(MergeMapFields(d.value, v.value)))
      && (v.None? ==> Get(r, key) == d)
  {
    MergePrefixLookup(target, imp, |imp.entries|, key);
    assert imp.entries[..|imp.entries|] == imp.entries;
  }

  // ---------------------------------------------------------------------
  // URL predicates

  /** nodeIsPotentialUrl: a present scalar that is not a "global." reference. */
  function NodeIsPotentialUrl(node: Option<Node>): (r: bool)
    ensures r <==> node.Some? && node.value.Scalar? && !exists t :: node.value.value == "global." + t
  {
    if node.None? || !node.value.Scalar? then false
    else if |node.value.value| >= 7 && node.value.value[..7] == "global." then
      assert node.value.value == "global." + node.value.value[7..];
      false
    else true
  }

  /**
   * nodeIsTextureUrl: a potential URL that does not decode as a boolean or a
   * number (the YAML decoders enter as predicates) and that no entry of the
   * scene's texture map has as its key.
   */
  function NodeIsTextureUrl(node: Option<Node>, textures: Option<Node>,
                            decodesAsBool: string -> bool, decodesAsNumber: string -> bool): (r: bool)
    ensures r <==>
      && node.Some? && node.value.Scalar?
      && (!exists t :: node.value.value == "global." + t)
      && !decodesAsBool(node.value.value) && !decodesAsNumber(node.value.value)
      && !(textures.Some? && textures.value.Map?
           && exists i :: 0 <= i < |textures.value.entries| && textures.value.entries[i].0 == node.value.value)
  {
    if !NodeIsPotentialUrl(node) then false
    else if decodesAsBool(node.value.value) then false
    else if decodesAsNumber(node.value.value) then false
    else if textures.Some? && textures.value.Map? then
      LookupSpec(textures.value.entries, node.value.value);
      Get(textures.value, node.value.value).None?
    else true
  }

  /** A "global." reference is never taken for a URL, whatever the texture table holds. */
  lemma GlobalReferenceIsNoUrl(s: string, textures: Option<Node>,
                               decodesAsBool: string -> bool, decodesAsNumber: string -> bool)
    ensures !NodeIsPotentialUrl(Some(Scalar("global." + s)))
    ensures !NodeIsTextureUrl(Some(Scalar("global." + s)), textures, decodesAsBool, decodesAsNumber)
  {
    assert ("global." + s)[..7] == "global.";
  }

  // ---------------------------------------------------------------------
  // Import lists

  /** The scalar elements of a sequence, in order. */
  function ScalarValues(items: seq<Node>): seq<string>
  {
    if items == [] then []
    else
      var init := ScalarValues(items[..|items| - 1]);
      var last := items[|items| - 1];
      if last.Scalar? then init + [last.value] else init
  }

  /** The import paths a scene names: a scalar `import`, or the scalars of an `import` sequence. */
  function ImportPaths(sceneNode: Node): seq<string>
  {
    match Get(sceneNode, "import")
    case Some(Scalar(s)) => [s]
    case Some(Sequence(items)) => ScalarValues(items)
    case _ => []
  }

  function ResolveAll(urls: UrlOps, paths: seq<string>, base: Url): (r: seq<Url>)
    ensures |r| == |paths| && forall i :: 0 <= i < |paths| ==> r[i] == urls.resolved(paths[i], base)
  {
    seq(|paths|, i requires 0 <= i < |paths| => urls.resolved(paths[i], base))
  }

  /** The asset table after createSceneAsset for every import path in turn. */
  function CreateAll(urls: UrlOps, assets: map<Url, Option<Scenes.SceneAsset>>, paths: seq<string>, base: Url)
    : map<Url, Option<Scenes.SceneAsset>>
  {
    if paths == [] then assets
    else
      var last := paths[|paths| - 1];
      Scenes.AssetsAfterCreate(urls, CreateAll(urls, assets, paths[..|paths| - 1], base),
                               urls.resolved(last, base), last, base)
  }

  /**
   * The scalars of an import sequence, kept in order: a path is listed iff
   * some element is that scalar, and nothing is dropped when every element is
   * a scalar.
   */
  lemma {:induction false} ScalarValuesSpec(items: seq<Node>)
    ensures forall s :: s in ScalarValues(items) <==> Scalar(s) in items
    ensures |ScalarValues(items)| <= |items|
    ensures (forall i :: 0 <= i < |items| ==> items[i].Scalar?) ==>
              ScalarValues(items) == seq(|items|, i requires 0 <= i < |items| => items[i].value)
  {
    if items != [] {
      var init := items[..|items| - 1];
      ScalarValuesSpec(init);
      assert items == init + [items[|items| - 1]];
      assert forall n :: n in items <==> n in init || n == items[|items| - 1];
    }
  }

  /**
   * The import paths of a scene: none without an `import` key (or for a
   * scene that is not a map), and otherwise a path is listed iff it is the
   * scalar `import` value or a scalar element of an `import` sequence.
   */
  lemma ImportPathsSpec(sceneNode: Node, path: string)
    ensures Get(sceneNode, "import").None? ==> ImportPaths(sceneNode) == []
    ensures path in ImportPaths(sceneNode) <==>
      var imp := Get(sceneNode, "import");
      || imp == Some(Scalar(path))
      || (imp.Some? && imp.value.Sequence? && Scalar(path) in imp.value.items)
  {
    match Get(sceneNode, "import")
    case Some(Sequence(items)) => ScalarValuesSpec(items);
    case _ =>
  }

  /**
   * Every import URL has an entry in the asset table once the import list has
   * been resolved, and entries that were already there are kept.
   */
  lemma {:induction false} CreateAllCoversImports(urls: UrlOps, assets: map<Url, Option<Scenes.SceneAsset>>,
                                                  paths: seq<string>, base: Url)
    ensures var after := CreateAll(urls, assets, paths, base);
      && (forall i :: 0 <= i < |paths| ==> urls.resolved(paths[i], base) in after)
      && (forall u :: u in assets ==> u in after && after[u] == assets[u])
  {
    if paths != [] {
      var init := paths[..|paths| - 1];
      var last := paths[|paths| - 1];
      CreateAllCoversImports(urls, assets, init, base);
      var mid := CreateAll(urls, assets, init, base);
      Scenes.CreateAssetFrame(urls, mid, urls.resolved(last, base), last, base);
      assert forall i :: 0 <= i < |paths| - 1 ==> paths[i] == init[i];
    }
  }

  /** The URLs whose documents are maps: the only ones the recursive import descends into. */
  function MapUrls(scenes: map<Url, Node>): set<Url>
  {
    set u | u in scenes && scenes[u].Map?
  }

  class Importer {
    /** Every scene document loaded so far, keyed by its URL. */
    var scenes: map<Url, Node>
    /** URLs still to be fetched. */
    var sceneQueue: seq<Url>

    const urls: UrlOps
    /** YAML::Load; None when the text does not parse. */
    const load: string -> Option<Node>
    /** resolveSceneUrls on the root's entries, against the base URL (not modelled). */
    const resolveSceneUrls: (seq<(string, Node)>, Url) -> seq<(string, Node)>

    constructor (urls: UrlOps, load: string -> Option<Node>,
                 resolveSceneUrls: (seq<(string, Node)>, Url) -> seq<(string, Node)>)
      ensures scenes == map[] && sceneQueue == []
      ensures this.urls == urls && this.load == load && this.resolveSceneUrls == resolveSceneUrls
    {
      scenes, sceneQueue := map[], [];
      this.urls, this.load, this.resolveSceneUrls := urls, load, resolveSceneUrls;
    }

    /** getResolvedImportUrls: resolve the scene's imports against its URL, creating an asset for each. */
    method GetResolvedImportUrls(scene: Scenes.Scene, sceneNode: Node, base: Url) returns (paths: seq<Url>)
      modifies scene`assets
      ensures paths == ResolveAll(urls, ImportPaths(sceneNode), base)
      ensures scene.assets == CreateAll(urls, old(scene.assets), ImportPaths(sceneNode), base)
    {
      paths := [];
      match Get(sceneNode, "import")
      case Some(Scalar(s)) =>
        var resolvedUrl := urls.resolved(s, base);
        scene.CreateSceneAsset(urls, resolvedUrl, s, base);
        paths := paths + [resolvedUrl];
        assert [s][..0] == [];
      case Some(Sequence(items)) =>
        var i := 0;
        while i < |items|
          invariant 0 <= i <= |items|
          invariant paths == ResolveAll(urls, ScalarValues(items[..i]), base)
          invariant scene.assets == CreateAll(urls, old(scene.assets), ScalarValues(items[..i]), base)
        {
          assert items[..i + 1][..i] == items[..i];
          var path := items[i];
          if path.Scalar? {
            var resolvedUrl := urls.resolved(path.value, base);
            scene.CreateSceneAsset(urls, resolvedUrl, path.value, base);
            paths := paths + [resolvedUrl];
            ghost var vs := ScalarValues(items[..i + 1]);
            assert vs[..|vs| - 1] == ScalarValues(items[..i]);
          }
          i := i + 1;
        }
        assert items[..i] == items;
      case _ =>
    }

    /** processScene: parse and record a scene not seen before, and queue its imports. */
    method ProcessScene(scene: Scenes.Scene, sceneUrl: Url, sceneString: string)
      modifies this`scenes, this`sceneQueue, scene`assets
      ensures sceneUrl in old(scenes) || load(sceneString).None? ==>
        scenes == old(scenes) && sceneQueue == old(sceneQueue) && scene.assets == old(scene.assets)
      ensures sceneUrl !in old(scenes) && load(sceneString).Some? ==>
        var node := load(sceneString).value;
        && scenes == old(scenes)[sceneUrl := node]
        && sceneQueue == old(sceneQueue) + ResolveAll(urls, ImportPaths(node), sceneUrl)
        && scene.assets == CreateAll(urls, old(scene.assets), ImportPaths(node), sceneUrl)
    {
      // Don't load imports twice
      if sceneUrl in scenes {
        return;
      }
      var parsed := load(sceneString);
      if parsed.None? {
        return;  // "Parsing scene config" is logged
      }
      var sceneNode := parsed.value;
      scenes := scenes[sceneUrl := sceneNode];
      var imports := GetResolvedImportUrls(scene, sceneNode, sceneUrl);
      Enqueue(imports);
    }

    /** The loop of processScene that appends the resolved imports to the queue. */
    method Enqueue(imports: seq<Url>)
      modifies this`sceneQueue
      ensures sceneQueue == old(sceneQueue) + imports
    {
      var i := 0;
      while i < |imports|
        invariant 0 <= i <= |imports|
        invariant sceneQueue == old(sceneQueue) + imports[..i]
      {
        assert imports[..i + 1] == imports[..i] + [imports[i]];
        sceneQueue := sceneQueue + [imports[i]];
        i := i + 1;
      }
      assert imports[..i] == imports;
    }

    /**
     * importScenesRecursive: merge the scene at sceneUrl, after all of its
     * imports, into root. The ghost result `imported` is root once the
     * imports have been merged, just before the scene itself is.
     */
    method ImportScenesRecursive(scene: Scenes.Scene, root: Node, sceneUrl: Url, stack: seq<Url>)
      returns (newRoot: Node, newStack: seq<Url>, ghost imported: Node)
      requires root.Null? || root.Map?
      modifies this`scenes, scene`assets
      decreases MapUrls(scenes) - (set u | u in stack), 1
      ensures newRoot.Null? || newRoot.Map?
      ensures stack <= newStack
      ensures MapUrls(scenes) == MapUrls(old(scenes)) && old(scenes).Keys <= scenes.Keys
      ensures forall u :: u in stack && u in old(scenes) ==> scenes[u] == old(scenes[u])
      // a URL already on the stack would be a cyclic import: nothing happens
      ensures sceneUrl in stack ==>
        newRoot == root && newStack == stack && scenes == old(scenes) && scene.assets == old(scene.assets)
      // a missing, null or non-map document: the URL stays pushed and nothing is merged
      ensures sceneUrl !in stack && !(sceneUrl in old(scenes) && old(scenes[sceneUrl]).Map?) ==>
        && newRoot == root && newStack == stack + [sceneUrl] && scene.assets == old(scene.assets)
        && scenes == (if sceneUrl in old(scenes) then old(scenes) else old(scenes)[sceneUrl := Null])
      // a map document: the imports first, then the document without its `import` key
      ensures sceneUrl !in stack && sceneUrl in old(scenes) && old(scenes[sceneUrl]).Map? ==>
        var body := Map(RemoveKey(old(scenes[sceneUrl]).entries, "import"));
        && (imported.Null? || imported.Map?)
        && newRoot == Map(resolveSceneUrls(EntriesOf(MergeMapFields(imported, body)), sceneUrl))
        && (ImportPaths(old(scenes[sceneUrl])) == [] ==> imported == root && newStack == stack)
        && sceneUrl in scenes && scenes[sceneUrl] == body
    {
      imported := root;
      var cyclic := OnStack(stack, sceneUrl);
      if cyclic {
        // "Stopping this scene from being imported" is logged
        return root, stack, root;
      }

      newStack := stack + [sceneUrl];

      var sceneNode: Node;
      if sceneUrl in scenes {
        sceneNode := scenes[sceneUrl];
      } else {
        sceneNode := Null;
        scenes := scenes[sceneUrl := Null];
      }
      if sceneNode.Null? { return root, newStack, root; }
      if !sceneNode.Map? { return root, newStack, root; }

      var imports := GetResolvedImportUrls(scene, sceneNode, sceneUrl);

      // Don't want to merge imports, so remove them here.
      var body := Map(RemoveKey(sceneNode.entries, "import"));
      scenes := scenes[sceneUrl := body];
      assert MapUrls(scenes) == MapUrls(old(scenes));

      newRoot, newStack := ImportEach(scene, root, imports, stack, sceneUrl, newStack);

      newStack := newStack[..|newStack| - 1];

      imported := newRoot;
      var merged := MergeMapFields(newRoot, body);
      newRoot := Map(resolveSceneUrls(EntriesOf(merged), sceneUrl));
    }

    /** The loop of importScenesRecursive over the import URLs of the scene at `current`, pushed on `stack`. */
    method ImportEach(scene: Scenes.Scene, root: Node, imports: seq<Url>, stack: seq<Url>, current: Url,
                      pushed: seq<Url>)
      returns (newRoot: Node, newStack: seq<Url>)
      requires root.Null? || root.Map?
      requires stack + [current] <= pushed
      requires current in MapUrls(scenes) && current !in stack
      modifies this`scenes, scene`assets
      decreases MapUrls(scenes) - (set u | u in stack), 0
      ensures newRoot.Null? || newRoot.Map?
      ensures stack + [current] <= newStack
      ensures MapUrls(scenes) == MapUrls(old(scenes)) && old(scenes).Keys <= scenes.Keys
      ensures forall u :: u in pushed && u in old(scenes) ==> scenes[u] == old(scenes[u])
      ensures imports == [] ==>
        newRoot == root && newStack == pushed && scenes == old(scenes) && scene.assets == old(scene.assets)
    {
      newRoot, newStack := root, pushed;
      var i := 0;
      while i < |imports|
        invariant 0 <= i <= |imports|
        invariant newRoot.Null? || newRoot.Map?
        invariant stack + [current] <= newStack && pushed <= newStack
        invariant MapUrls(scenes) == MapUrls(old(scenes)) && old(scenes).Keys <= scenes.Keys
        invariant forall u :: u in pushed && u in old(scenes) ==> scenes[u] == old(scenes[u])
        invariant i == 0 ==>
          newRoot == root && newStack == pushed && scenes == old(scenes) && scene.assets == old(scene.assets)
      {
        forall u | u in stack || u == current ensures u in newStack {
          if u == current {
            assert newStack[|stack|] == current;
          } else {
            var j :| 0 <= j < |stack| && stack[j] == u;
            assert newStack[j] == (stack + [current])[j];
          }
        }
        assert (set u | u in newStack) >= (set u | u in stack) + {current};
        ghost var g;
        newRoot, newStack, g := ImportScenesRecursive(scene, newRoot, imports[i], newStack);
        i := i + 1;
      }
    }
  }

  /** The cycle check: whether the URL is already on the import stack. */
  method OnStack(stack: seq<Url>, url: Url) returns (found: bool)
    ensures found <==> url in stack
  {
    var i := 0;
    while i < |stack|
      invariant 0 <= i <= |stack|
      invariant forall j :: 0 <= j < i ==> stack[j] != url
    {
      if stack[i] == url {
        return true;
      }
      i := i + 1;
    }
    return false;
  }
}
