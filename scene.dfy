/**
 * The registries a Scene keeps: interned names, the table of JavaScript
 * style functions, the styles, lights and tile sources that the scene
 * loader fills in, and the table of assets keyed by resolved URL.
 */
module Scenes {
  import opened Wrappers
  import opened Urls
  import opened Geometry

  datatype Style = Style(name: string, id: int)
  datatype Light = Light(instanceName: string)
  datatype TileSource = TileSource(id: int, name: string)

  /** Identity of a zip archive: the resolved URL of the asset that loaded it. */
  datatype ZipHandle = ArchiveOf(url: Url)

  /** Where a zipped asset's archive comes from. */
  datatype ZipSource =
    | Deferred                  // fetched later; the handle is built in a network callback
    | FromFile                  // bytes read from the file at the resolved URL
    | FromParent(parent: Url)   // bytes read out of the parent (base) asset
    | Shared(handle: ZipHandle) // an entry inside the parent's already opened archive

  datatype SceneAsset =
    | PlainAsset(url: Url)
    | ZippedAsset(url: Url, source: ZipSource)

  /** ZippedAsset::zipHandle(), and null for a null or plain asset. */
  function ZipHandleOf(a: Option<SceneAsset>): Option<ZipHandle>
  {
    match a
    case Some(ZippedAsset(u, Deferred)) => None
    case Some(ZippedAsset(u, Shared(h))) => Some(h)
    case Some(ZippedAsset(u, _)) => Some(ArchiveOf(u))
    case _ => None
  }

  predicate NoDuplicates<T(==)>(s: seq<T>)
  {
    forall i, j :: 0 <= i < j < |s| ==> s[i] != s[j]
  }

  /** The JavaScript function table after addJsFunction of each source, in order. */
  function WithFunctions(table: seq<string>, sources: seq<string>): seq<string>
  {
    if sources == [] then table
    else
      var before := WithFunctions(table, sources[..|sources| - 1]);
      var f := sources[|sources| - 1];
      if f in before then before else before + [f]
  }

  /**
   * Registering functions only appends: the old table is a prefix, the new
   * table holds exactly the old functions and the registered ones, and a
   * table without duplicates stays without duplicates.
   */
  lemma {:induction false} WithFunctionsSpec(table: seq<string>, sources: seq<string>)
    ensures table <= WithFunctions(table, sources)
    ensures forall f :: f in WithFunctions(table, sources) <==> f in table || f in sources
    ensures NoDuplicates(table) ==> NoDuplicates(WithFunctions(table, sources))
  {
    if sources != [] {
      var init := sources[..|sources| - 1];
      WithFunctionsSpec(table, init);
      assert sources == init + [sources[|sources| - 1]];
    }
  }

  /** Registering functions the table already holds leaves it as it is. */
  lemma {:induction false} KnownSourcesAddNothing(table: seq<string>, sources: seq<string>)
    requires forall f :: f in sources ==> f in table
    ensures WithFunctions(table, sources) == table
  {
    if sources != [] {
      KnownSourcesAddNothing(table, sources[..|sources| - 1]);
    }
  }

  /** std::find over a sequence: the index of the first occurrence of x, or -1. */
  function IndexOf<T(==)>(s: seq<T>, x: T): (r: int)
    ensures r == -1 <==> x !in s
    ensures r != -1 ==> 0 <= r < |s| && s[r] == x && x !in s[..r]
  {
    if s == [] then -1
    else if s[0] == x then 0
    else
      var k := IndexOf(s[1..], x);
      assert s[1..][..if k < 0 then 0 else k] == s[1..if k < 0 then 1 else k + 1];
      if k < 0 then -1 else k + 1
  }

  /** The index of the first element satisfying p, if any. */
  function FindFirst<T>(s: seq<T>, p: T -> bool): (r: Option<nat>)
    ensures r.Some? ==> r.value < |s| && p(s[r.value]) && forall j :: 0 <= j < r.value ==> !p(s[j])
    ensures r.None? ==> forall j :: 0 <= j < |s| ==> !p(s[j])
  {
    if s == [] then None
    else if p(s[0]) then Some(0)
    else match FindFirst(s[1..], p)
      case None => None
      case Some(k) => Some(k + 1)
  }

  /** True when an asset of this URL goes into a zip archive (Url::getPathExtension == "zip"). */
  predicate IsZipUrl(urls: UrlOps, u: Url) { urls.pathExtension(u) == "zip" }

  /**
   * The asset createSceneAsset makes for resolvedUrl, given the table as it
   * stands after the parent lookup.
   */
  function ClassifyAsset(urls: UrlOps, assets: map<Url, Option<SceneAsset>>,
                         resolvedUrl: Url, relativeUrl: Url, base: Url): SceneAsset
  {
    if IsZipUrl(urls, resolvedUrl) then
      if urls.hasHttpScheme(relativeUrl) || (urls.hasHttpScheme(resolvedUrl) && urls.isEmpty(base)) then
        ZippedAsset(resolvedUrl, Deferred)
      else if urls.isAbsolute(relativeUrl) || urls.isEmpty(base) then
        ZippedAsset(resolvedUrl, FromFile)
      else
        ZippedAsset(resolvedUrl, FromParent(base))
    else
      var parent := if base in assets then assets[base] else None;
      if urls.isAbsolute(relativeUrl) || (parent.Some? && ZipHandleOf(parent).None?) then
        PlainAsset(resolvedUrl)
      else if parent.Some? && ZipHandleOf(parent).Some? then
        ZippedAsset(resolvedUrl, Shared(ZipHandleOf(parent).value))
      else
        PlainAsset(resolvedUrl)
  }

  /** True when createSceneAsset indexes m_assets by the base URL (which inserts a null entry when absent). */
  predicate LooksUpParent(urls: UrlOps, resolvedUrl: Url, relativeUrl: Url, base: Url)
  {
    if IsZipUrl(urls, resolvedUrl) then
      !(urls.hasHttpScheme(relativeUrl) || (urls.hasHttpScheme(resolvedUrl) && urls.isEmpty(base)))
      && !(urls.isAbsolute(relativeUrl) || urls.isEmpty(base))
    else true
  }

  /** The asset table after createSceneAsset. */
  function AssetsAfterCreate(urls: UrlOps, assets: map<Url, Option<SceneAsset>>,
                             resolvedUrl: Url, relativeUrl: Url, base: Url): map<Url, Option<SceneAsset>>
  {
    if resolvedUrl in assets then assets
    else
      var withParent :=
        if LooksUpParent(urls, resolvedUrl, relativeUrl, base) && base !in assets
        then assets[base := None] else assets;
      withParent[resolvedUrl := Some(ClassifyAsset(urls, withParent, resolvedUrl, relativeUrl, base))]
  }

  /** A ".zip" URL always yields a zipped asset. */
  lemma ZipExtensionYieldsZippedAsset(urls: UrlOps, assets: map<Url, Option<SceneAsset>>,
                                      resolvedUrl: Url, relativeUrl: Url, base: Url)
    requires IsZipUrl(urls, resolvedUrl)
    ensures ClassifyAsset(urls, assets, resolvedUrl, relativeUrl, base).ZippedAsset?
  {
  }

  /**
   * Outside zip URLs, an asset is zipped exactly when its URL is relative and
   * its parent already holds an open archive; it then shares that archive.
   */
  lemma NonZipClassification(urls: UrlOps, assets: map<Url, Option<SceneAsset>>,
                              resolvedUrl: Url, relativeUrl: Url, base: Url)
    requires !IsZipUrl(urls, resolvedUrl)
    ensures var a := ClassifyAsset(urls, assets, resolvedUrl, relativeUrl, base);
      var parent := if base in assets then assets[base] else None;
      && (a.ZippedAsset? <==> !urls.isAbsolute(relativeUrl) && ZipHandleOf(parent).Some?)
      && (a.ZippedAsset? ==> a.source == Shared(ZipHandleOf(parent).value))
      && (a.PlainAsset? ==> a.url == resolvedUrl)
  {
  }

  /**
   * createSceneAsset does nothing for a URL already in the table; otherwise it
   * maps the resolved URL to its new asset, may add a null entry for the base
   * URL, and leaves every other entry as it was.
   */
  lemma {:induction false} CreateAssetFrame(urls: UrlOps, assets: map<Url, Option<SceneAsset>>,
                                            resolvedUrl: Url, relativeUrl: Url, base: Url)
    ensures var after := AssetsAfterCreate(urls, assets, resolvedUrl, relativeUrl, base);
      && (resolvedUrl in assets ==> after == assets)
      && (resolvedUrl !in assets ==>
            && after.Keys - assets.Keys <= {resolvedUrl, base}
            && resolvedUrl in after && after[resolvedUrl].Some?
            && after[resolvedUrl].value.url == resolvedUrl
            && (base != resolvedUrl && base in after && base !in assets ==> after[base].None?)
            && forall u :: u in assets ==> u in after && after[u] == assets[u])
  {
  }

  class Scene {
    var names: seq<string>
    var jsFunctions: seq<string>
    var styles: seq<Style>
    var lights: seq<Light>
    var tileSources: seq<TileSource>
    var assets: map<Url, Option<SceneAsset>>
    /** The scene's map projection, LonLatToMeters (not modelled). */
    const projection: Vec2 -> Vec2

    constructor (projection: Vec2 -> Vec2)
      ensures names == [] && jsFunctions == [] && styles == [] && lights == []
      ensures tileSources == [] && assets == map[]
      ensures this.projection == projection
    {
      names, jsFunctions, styles, lights, tileSources := [], [], [], [], [];
      assets := map[];
      this.projection := projection;
    }

    /** Scene::findStyle: the first style with the given name, or none. */
    function FindStyle(name: string): (r: Option<Style>)
      reads this
      ensures r.None? <==> forall i :: 0 <= i < |styles| ==> styles[i].name != name
      ensures r.Some? ==> exists i :: 0 <= i < |styles| && styles[i] == r.value && r.value.name == name
                                      && forall j :: 0 <= j < i ==> styles[j].name != name
    {
      match FindFirst(styles, (s: Style) => s.name == name)
      case None => None
      case Some(i) => Some(styles[i])
    }

    /** Scene::findLight: the first light with the given instance name, or none. */
    function FindLight(name: string): (r: Option<Light>)
      reads this
      ensures r.None? <==> forall i :: 0 <= i < |lights| ==> lights[i].instanceName != name
      ensures r.Some? ==> exists i :: 0 <= i < |lights| && lights[i] == r.value && r.value.instanceName == name
                                      && forall j :: 0 <= j < i ==> lights[j].instanceName != name
    {
      match FindFirst(lights, (l: Light) => l.instanceName == name)
      case None => None
      case Some(i) => Some(lights[i])
    }

    /** Scene::getTileSource(int32_t): the first source with the given id, or none. */
    function GetTileSourceById(id: int): (r: Option<TileSource>)
      reads this
      ensures r.None? <==> forall i :: 0 <= i < |tileSources| ==> tileSources[i].id != id
      ensures r.Some? ==> exists i :: 0 <= i < |tileSources| && tileSources[i] == r.value && r.value.id == id
                                      && forall j :: 0 <= j < i ==> tileSources[j].id != id
    {
      match FindFirst(tileSources, (s: TileSource) => s.id == id)
      case None => None
      case Some(i) => Some(tileSources[i])
    }

    /** Scene::getTileSource(const std::string&): the first source with the given name, or none. */
    function GetTileSourceByName(name: string): (r: Option<TileSource>)
      reads this
      ensures r.None? <==> forall i :: 0 <= i < |tileSources| ==> tileSources[i].name != name
      ensures r.Some? ==> exists i :: 0 <= i < |tileSources| && tileSources[i] == r.value && r.value.name == name
                                      && forall j :: 0 <= j < i ==> tileSources[j].name != name
    {
      match FindFirst(tileSources, (s: TileSource) => s.name == name)
      case None => None
      case Some(i) => Some(tileSources[i])
    }

    /** Scene::getIdForName: -1 when the name is unknown, else the index of its first occurrence. */
    function GetIdForName(name: string): (id: int)
      reads this
      ensures id == -1 <==> name !in names
      ensures id != -1 ==> 0 <= id < |names| && names[id] == name && name !in names[..id]
    {
      IndexOf(names, name)
    }

    /** Scene::addIdForName: intern a name, appending it only when it is new. */
    method AddIdForName(name: string) returns (id: int)
      modifies this`names
      ensures name in old(names) ==> names == old(names) && id == old(GetIdForName(name))
      ensures name !in old(names) ==> names == old(names) + [name] && id == |old(names)|
      ensures 0 <= id < |names| && names[id] == name
      ensures NoDuplicates(old(names)) ==> NoDuplicates(names)
    {
      id := GetIdForName(name);
      if id < 0 {
        names := names + [name];
        id := |names| - 1;
      }
    }

    /** Scene::addJsFunction: the index of the function, appending it when it is new. */
    method AddJsFunction(function_: string) returns (i: nat)
      modifies this`jsFunctions
      ensures old(jsFunctions) <= jsFunctions
      ensures function_ in old(jsFunctions) ==> jsFunctions == old(jsFunctions)
      ensures function_ !in old(jsFunctions) ==> jsFunctions == old(jsFunctions) + [function_]
      ensures i < |jsFunctions| && jsFunctions[i] == function_ && function_ !in jsFunctions[..i]
    {
      i := 0;
      while i < |jsFunctions|
        invariant i <= |jsFunctions|
        invariant function_ !in jsFunctions[..i]
      {
        if jsFunctions[i] == function_ {
          return;
        }
        assert jsFunctions[..i + 1] == jsFunctions[..i] + [jsFunctions[i]];
        i := i + 1;
      }
      assert jsFunctions[..i] == jsFunctions;
      jsFunctions := jsFunctions + [function_];
      i := |jsFunctions| - 1;
      assert jsFunctions[..i] == old(jsFunctions);
    }

    /** Scene::createSceneAsset: register the asset for resolvedUrl once. */
    method CreateSceneAsset(urls: UrlOps, resolvedUrl: Url, relativeUrl: Url, base: Url)
      modifies this`assets
      ensures assets == AssetsAfterCreate(urls, old(assets), resolvedUrl, relativeUrl, base)
    {
      if resolvedUrl in assets { return; }
      var asset: SceneAsset;
      if IsZipUrl(urls, resolvedUrl) {
        if urls.hasHttpScheme(relativeUrl) || (urls.hasHttpScheme(resolvedUrl) && urls.isEmpty(base)) {
          asset := ZippedAsset(resolvedUrl, Deferred);
        } else if urls.isAbsolute(relativeUrl) || urls.isEmpty(base) {
          asset := ZippedAsset(resolvedUrl, FromFile);
        } else {
          // m_assets[baseStr] inserts a null entry when the base is unknown.
          if base !in assets { assets := assets[base := None]; }
          asset := ZippedAsset(resolvedUrl, FromParent(base));
        }
      } else {
        if base !in assets { assets := assets[base := None]; }
        var parent := assets[base];
        if urls.isAbsolute(relativeUrl) || (parent.Some? && ZipHandleOf(parent).None?) {
          asset := PlainAsset(resolvedUrl);
        } else if parent.Some? && ZipHandleOf(parent).Some? {
          asset := ZippedAsset(resolvedUrl, Shared(ZipHandleOf(parent).value));
        } else {
          asset := PlainAsset(resolvedUrl);
        }
      }
      assets := assets[resolvedUrl := Some(asset)];
    }
  }
}
