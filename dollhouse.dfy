/**
 * The dollhouse side of src/main.js that decides things rather than draws
 * them: which meshes of a loaded model are node markers (`extractNodes`),
 * finding the marker of a pano (`findNodeInEntry`), the model cache
 * (`loadDollModel`), the choice of the model that shows a pano
 * (`chooseBestDollKeyForPano`), and the model switcher's guards and wipe
 * direction (`switchDollhouseModel`).
 *
 * A loaded model is represented by the objects `root.traverse` visits, in
 * visiting order; a model's identity (the `root` object) by the URL it was
 * loaded from and the number of the load that produced it.
 */
module Dollhouse {

  import opened Base
  import Naming
  import opened NavSpec

  /** The three dollhouse models: the whole house, the upper and the lower floor. */
  datatype DollKey = Full | Up | Down

  /** An object met by `root.traverse`: whether it is a mesh, and its name. */
  datatype SceneObject = SceneObject(isMesh: bool, name: string)

  /** A node marker: the position of its mesh in visiting order, and `userData.panoIndex`. */
  datatype NodeMesh = NodeMesh(obj: nat, panoIndex: int)

  /** A loaded model's `root`: the URL it came from and which load produced it. */
  datatype Root = Root(url: string, serial: nat)

  /** A `dollCache` entry (bounds and alignment are not modelled). */
  datatype DollEntry = DollEntry(root: Root, nodes: seq<NodeMesh>)

  /** The swap animation `switchDollhouseModel` plays. */
  datatype Wipe = NoWipe | BottomUp | SwapUp | SwapDown

  // ---------------------------------------------------------------------------
  // extractNodes: which meshes are node markers
  // ---------------------------------------------------------------------------

  /** `toUpperCase` on the ASCII letters. */
  function UpperAscii(c: char): char
  {
    if 'a' <= c <= 'z' then (c as int - 32) as char else c
  }

  /**
   * `toUpperCase` on an ASCII string: it keeps the length, leaves no
   * lower-case letter, moves each lower-case letter to the capital at the
   * same place in the alphabet and keeps every other character.
   */
  function Upper(s: string): (u: string)
    ensures |u| == |s|
    ensures forall k :: 0 <= k < |u| ==> !('a' <= u[k] <= 'z')
    ensures forall k :: 0 <= k < |s| && 'a' <= s[k] <= 'z' ==>
      'A' <= u[k] <= 'Z' && u[k] as int - 'A' as int == s[k] as int - 'a' as int
    ensures forall k :: 0 <= k < |s| && !('a' <= s[k] <= 'z') ==> u[k] == s[k]
  {
    seq(|s|, k requires 0 <= k < |s| => UpperAscii(s[k]))
  }

  predicate AllDigits(s: string)
  {
    forall k :: 0 <= k < |s| ==> Naming.IsDigit(s[k])
  }

  const NodePrefix: string := "NODE_"

  /** `name` matches `/^NODE_(\d+)$/` with `digits` as the captured group. */
  predicate NodeMatch(name: string, digits: string)
  {
    |digits| > 0 && AllDigits(digits) && name == NodePrefix + digits
  }

  /** `name.match(/^NODE_(\d+)$/)`: the captured digits, when the whole name matches. */
  function MatchNode(name: string): (r: Option<string>)
    ensures r.Some? ==> NodeMatch(name, r.value)
    ensures r.None? ==> forall d :: !NodeMatch(name, d)
  {
    if |name| > |NodePrefix| && name[..|NodePrefix|] == NodePrefix && AllDigits(name[|NodePrefix|..])
    then
      assert name == NodePrefix + name[|NodePrefix|..];
      Some(name[|NodePrefix|..])
    else
      assert forall d :: NodeMatch(name, d) ==> name[..|NodePrefix|] == NodePrefix && name[|NodePrefix|..] == d;
      None
  }

  /** The pano index a mesh name stands for: `NODE_n`, in any letter case, is pano `n - 1`. */
  function NodeIndexOfName(name: string): Option<int>
  {
    match MatchNode(Upper(name))
    case None => None
    case Some(d) => Some(Naming.ParseDigits(d) - 1)
  }

  /** The marker, if any, that the object at position `k` of a traversal makes. */
  function NodeAt(objs: seq<SceneObject>, k: nat): seq<NodeMesh>
    requires k < |objs|
  {
    if !objs[k].isMesh then []
    else match NodeIndexOfName(objs[k].name)
      case None => []
      case Some(i) => [NodeMesh(k, i)]
  }

  /** The markers of a traversal, in visiting order. */
  function NodesOf(objs: seq<SceneObject>): (r: seq<NodeMesh>)
    ensures forall j :: 0 <= j < |r| ==> r[j].obj < |objs|
    decreases |objs|
  {
    if objs == [] then [] else NodesOf(objs[..|objs| - 1]) + NodeAt(objs, |objs| - 1)
  }

  /**
   * A marker is exactly a mesh whose name is `NODE_n` (in any letter case),
   * carrying pano index `n - 1`; every other object is left alone.
   */
  lemma {:induction false} NodesOfExact(objs: seq<SceneObject>, n: NodeMesh)
    ensures n in NodesOf(objs) <==>
      n.obj < |objs| && objs[n.obj].isMesh && NodeIndexOfName(objs[n.obj].name) == Some(n.panoIndex)
    decreases |objs|
  {
    if objs != [] {
      var init := objs[..|objs| - 1];
      NodesOfExact(init, n);
      if n.obj < |init| {
        assert init[n.obj] == objs[n.obj];
      }
    }
  }

  /** The markers come in visiting order, at most one per object. */
  lemma {:induction false} NodesOfOrdered(objs: seq<SceneObject>)
    ensures forall i, j :: 0 <= i < j < |NodesOf(objs)| ==> NodesOf(objs)[i].obj < NodesOf(objs)[j].obj
    decreases |objs|
  {
    if objs != [] {
      var init := objs[..|objs| - 1];
      NodesOfOrdered(init);
    }
  }

  lemma UpperConcat(a: string, b: string)
    ensures Upper(a + b) == Upper(a) + Upper(b)
  {
    assert forall k :: 0 <= k < |a + b| ==> Upper(a + b)[k] == (Upper(a) + Upper(b))[k];
  }

  lemma UpperDigits(d: string)
    requires AllDigits(d)
    ensures Upper(d) == d
  {
    assert forall k :: 0 <= k < |d| ==> Upper(d)[k] == d[k];
  }

  /** Mesh names as authored, `NODE_01`, `node_7`, ..., stand for the pano one below their number. */
  lemma NodeNameRoundTrip(i: nat, width: nat)
    ensures NodeIndexOfName(NodePrefix + Naming.Pad(i + 1, width)) == Some(i)
    ensures NodeIndexOfName("node_" + Naming.Pad(i + 1, width)) == Some(i)
  {
    var p := Naming.Pad(i + 1, width);
    Naming.PadRoundTrip(i + 1, width);
    UpperNodeName(NodePrefix, p);
    UpperNodeName("node_", p);
    MatchNodeDigits(p);
  }

  /** Upper-casing a node prefix followed by digits gives the canonical name. */
  lemma UpperNodeName(pre: string, p: string)
    requires pre == NodePrefix || pre == "node_"
    requires AllDigits(p)
    ensures Upper(pre + p) == NodePrefix + p
  {
    UpperDigits(p);
    UpperConcat(pre, p);
    assert Upper(pre) == NodePrefix;
  }

  /** `NODE_` followed by digits matches, capturing exactly those digits. */
  lemma MatchNodeDigits(p: string)
    requires AllDigits(p) && |p| > 0
    ensures MatchNode(NodePrefix + p) == Some(p)
  {
    var n := NodePrefix + p;
    assert NodeMatch(n, p);
    var r := MatchNode(n);
    assert n[|NodePrefix|..] == p;
  }

  /** Names with anything around the pattern are not markers. */
  lemma NearMissNames()
    ensures NodeIndexOfName("NODE_01_glass") == None
    ensures NodeIndexOfName("MY_NODE_01") == None
    ensures NodeIndexOfName("NODE_") == None
  {
    assert Upper("NODE_01_glass")[7] == '_';
    assert !AllDigits(Upper("NODE_01_glass")[5..]) by {
      assert Upper("NODE_01_glass")[5..][2] == '_';
    }
    assert Upper("MY_NODE_01")[..5] != NodePrefix by {
      assert Upper("MY_NODE_01")[0] == 'M';
    }
  }

  /**
   * `extractNodes(root)`: visit the objects in order and collect the node
   * markers, each tagged with its pano index.
   */
  method ExtractNodes(objs: seq<SceneObject>) returns (nodes: seq<NodeMesh>)
    ensures nodes == NodesOf(objs)
  {
    nodes := [];
    var k := 0;
    while k < |objs|
      invariant 0 <= k <= |objs|
      invariant nodes == NodesOf(objs[..k])
    {
      assert objs[..k + 1][..k] == objs[..k];
      if objs[k].isMesh {
        var name := Upper(objs[k].name);
        var m := MatchNode(name);
        if m.Some? {
          nodes := nodes + [NodeMesh(k, Naming.ParseDigits(m.value) - 1)];
        }
      }
      k := k + 1;
    }
    assert objs[..k] == objs;
  }

  // ---------------------------------------------------------------------------
  // findNodeInEntry
  // ---------------------------------------------------------------------------

  /** The position of the first marker of pano `p` at or after `from`. */
  function FirstMarkerFrom(nodes: seq<NodeMesh>, p: int, from: nat): (r: Option<nat>)
    requires from <= |nodes|
    ensures r.Some? ==> from <= r.value < |nodes| && nodes[r.value].panoIndex == p
    ensures r.Some? ==> forall j :: from <= j < r.value ==> nodes[j].panoIndex != p
    ensures r.None? ==> forall j :: from <= j < |nodes| ==> nodes[j].panoIndex != p
    decreases |nodes| - from
  {
    if from == |nodes| then None
    else if nodes[from].panoIndex == p then Some(from)
    else FirstMarkerFrom(nodes, p, from + 1)
  }

  /**
   * `findNodeInEntry(entry, p)`: no entry or no markers gives `null`,
   * otherwise the first marker of pano `p`, or `null` when there is none.
   */
  function FindNodeInEntry(entry: Option<DollEntry>, p: int): (r: Option<NodeMesh>)
    ensures r.Some? ==> entry.Some? && r.value in entry.value.nodes && r.value.panoIndex == p
    ensures r.None? ==> entry.None? || forall n :: n in entry.value.nodes ==> n.panoIndex != p
  {
    if entry.None? || |entry.value.nodes| == 0 then None
    else match FirstMarkerFrom(entry.value.nodes, p, 0)
      case None => None
      case Some(k) => Some(entry.value.nodes[k])
  }

  /** The marker found is the first of its pano in visiting order. */
  lemma FindNodeIsFirst(e: DollEntry, p: int)
    requires FindNodeInEntry(Some(e), p).Some?
    ensures exists k ::
      && 0 <= k < |e.nodes| && e.nodes[k] == FindNodeInEntry(Some(e), p).value
      && forall j :: 0 <= j < k ==> e.nodes[j].panoIndex != p
  {
    var k := FirstMarkerFrom(e.nodes, p, 0).value;
    assert e.nodes[k] == FindNodeInEntry(Some(e), p).value;
  }

  // ---------------------------------------------------------------------------
  // Choosing a model
  // ---------------------------------------------------------------------------

  /** `dollUrlForKey`: anything but "up" and "down" is the full model. */
  function DollUrlForKey(key: DollKey, full: string, up: string, down: string): (url: string)
    ensures url in {full, up, down}
  {
    match key
    case Up => up
    case Down => down
    case Full => full
  }

  /** With three different model files configured, the three keys load three different files. */
  lemma DollUrlsDistinct(k1: DollKey, k2: DollKey, full: string, up: string, down: string)
    requires full != up && up != down && full != down
    ensures DollUrlForKey(k1, full, up, down) == DollUrlForKey(k2, full, up, down) <==> k1 == k2
  {
  }

  /** `has(key)` of `chooseBestDollKeyForPano`: model `key` is cached and has a marker of pano `p`. */
  predicate Has(cache: map<DollKey, DollEntry>, key: DollKey, p: int)
  {
    key in cache && FindNodeInEntry(Some(cache[key]), p).Some?
  }

  /** The preference of `chooseBestDollKeyForPano` once the models are loaded. */
  function BestKey(cache: map<DollKey, DollEntry>, p: int): DollKey
  {
    if Has(cache, Up, p) then Up else if Has(cache, Down, p) then Down else Full
  }

  /**
   * The upper floor wins, then the lower floor, and the whole house is the
   * fallback; in particular, whenever some loaded model has a marker of pano
   * `p`, the chosen one has.
   */
  lemma BestKeyPrefers(cache: map<DollKey, DollEntry>, p: int)
    ensures BestKey(cache, p) == Up <==> Has(cache, Up, p)
    ensures BestKey(cache, p) == Down <==> !Has(cache, Up, p) && Has(cache, Down, p)
    ensures BestKey(cache, p) == Full <==> !Has(cache, Up, p) && !Has(cache, Down, p)
    ensures (Has(cache, Up, p) || Has(cache, Down, p) || Has(cache, Full, p)) ==> Has(cache, BestKey(cache, p), p)
  {
  }

  /** Rank of a model from the bottom: lower floor, whole house, upper floor. */
  function Rank(key: DollKey): nat
  {
    match key
    case Down => 0
    case Full => 1
    case Up => 2
  }

  /** The wipe `switchDollhouseModel` plays for a switch from `prevKey` to `key`. */
  function WipeFor(mode: Mode, prevKey: DollKey, key: DollKey, prevRoot: Option<Root>, root: Root): Wipe
  {
    var swap := prevRoot.Some? && prevRoot.value != root;
    var up := mode == Dollhouse && ((prevKey == Down && (key == Up || key == Full)) || (prevKey == Full && key == Up)) && swap;
    var down := mode == Dollhouse && ((prevKey == Up && (key == Down || key == Full)) || (prevKey == Full && key == Down)) && swap;
    if up then SwapUp else if down then SwapDown else if mode == Dollhouse then BottomUp else NoWipe
  }

  /**
   * The two swap wipes follow the floors: a switch to a higher model wipes
   * up and one to a lower model wipes down, whenever a different model was
   * showing; otherwise the new model rises alone, and outside the dollhouse
   * nothing is played.
   */
  lemma WipeFollowsRank(mode: Mode, prevKey: DollKey, key: DollKey, prevRoot: Option<Root>, root: Root)
    ensures var w := WipeFor(mode, prevKey, key, prevRoot, root);
      var swap := prevRoot.Some? && prevRoot.value != root;
      && (w == SwapUp <==> mode == Dollhouse && swap && Rank(prevKey) < Rank(key))
      && (w == SwapDown <==> mode == Dollhouse && swap && Rank(prevKey) > Rank(key))
      && (w == BottomUp <==> mode == Dollhouse && (!swap || prevKey == key))
      && (w == NoWipe <==> mode != Dollhouse)
  {
  }

  // ---------------------------------------------------------------------------
  // The model cache and the switcher
  // ---------------------------------------------------------------------------

  /**
   * The model cache `c1` extends `c0` by loads of `files`: every entry of `c0`
   * is kept, and every new entry is a file of `files`, cached with the
   * markers its traversal yields.
   */
  ghost predicate Grows(c0: map<DollKey, DollEntry>, c1: map<DollKey, DollEntry>, files: map<DollKey, seq<SceneObject>>)
  {
    && (forall k :: k in c0 ==> k in c1 && c1[k] == c0[k])
    && (forall k :: k in c1 && k !in c0 ==> k in files && c1[k].nodes == NodesOf(files[k]))
  }

  lemma GrowsTrans(c0: map<DollKey, DollEntry>, c1: map<DollKey, DollEntry>, c2: map<DollKey, DollEntry>,
                   files: map<DollKey, seq<SceneObject>>)
    requires Grows(c0, c1, files) && Grows(c1, c2, files)
    ensures Grows(c0, c2, files)
  {
  }

  class Models {
    const fullUrl: string                    // DOLLHOUSE_GLB_FULL
    const upUrl: string                      // DOLLHOUSE_GLB_UP
    const downUrl: string                    // DOLLHOUSE_GLB_DOWN

    var cache: map<DollKey, DollEntry>       // dollCache
    var requested: seq<string>               // glTF loads issued, in order
    var activeKey: DollKey                   // activeDollKey
    var activeRoot: Option<Root>             // activeDollRoot
    var switching: bool
    var buttonActive: Option<DollKey>        // the highlighted model button
    var refReady: bool
    var lastWipe: Wipe                       // the last swap animation played

    function Url(key: DollKey): string
      reads this
    {
      DollUrlForKey(key, fullUrl, upUrl, downUrl)
    }

    /**
     * Each cached root came from its key's URL, by a load of its own; the
     * reference model is cached once ready; the active root is the active
     * key's cached root; between switches the highlighted button is the
     * active key's.
     */
    ghost predicate Valid()
      reads this
    {
      && (forall k :: k in cache ==>
            && cache[k].root.url == Url(k)
            && cache[k].root.serial < |requested|
            && requested[cache[k].root.serial] == Url(k))
      && (refReady ==> Full in cache)
      && (activeRoot.Some? ==> activeKey in cache && cache[activeKey].root == activeRoot.value)
      && (!switching && buttonActive.Some? ==> buttonActive.value == activeKey)
    }

    /** Nothing loaded, the lower floor selected, no button highlighted. */
    constructor(fullUrl: string, upUrl: string, downUrl: string)
      ensures Valid()
      ensures this.fullUrl == fullUrl && this.upUrl == upUrl && this.downUrl == downUrl
      ensures cache == map[] && requested == [] && activeKey == Down && activeRoot == None
      ensures !switching && buttonActive == None && !refReady && lastWipe == NoWipe
    {
      this.fullUrl := fullUrl;
      this.upUrl := upUrl;
      this.downUrl := downUrl;
      cache := map[];
      requested := [];
      activeKey := Down;
      activeRoot := None;
      switching := false;
      buttonActive := None;
      refReady := false;
      lastWipe := NoWipe;
    }

    /**
     * `loadDollModel(key)`: a hit returns the cached root and loads nothing;
     * a miss loads the key's file (`files` holds the files that load, as the
     * objects their traversal visits), extracts its markers and caches it.
     * A failed load caches nothing. Nothing here makes two overlapping misses
     * share one load.
     */
    method LoadDollModel(key: DollKey, files: map<DollKey, seq<SceneObject>>) returns (root: Option<Root>)
      requires Valid()
      modifies this`cache, this`requested
      ensures Valid()
      ensures key in old(cache) ==>
        root == Some(old(cache)[key].root) && cache == old(cache) && requested == old(requested)
      ensures key !in old(cache) ==> requested == old(requested) + [Url(key)]
      ensures key !in old(cache) && key in files ==>
        root == Some(Root(Url(key), |old(requested)|))
        && cache == old(cache)[key := DollEntry(root.value, NodesOf(files[key]))]
      ensures key !in old(cache) && key !in files ==> root == None && cache == old(cache)
      ensures forall k :: k in cache <==> k in old(cache) || (k == key && k in files)
      ensures forall k :: k in old(cache) ==> cache[k] == old(cache)[k]
      ensures Grows(old(cache), cache, files)
    {
      if key in cache {
        return Some(cache[key].root);
      }
      var url := Url(key);
      var serial := |requested|;
      requested := requested + [url];
      if key !in files {
        return None;
      }
      var nodes := ExtractNodes(files[key]);
      root := Some(Root(url, serial));
      cache := cache[key := DollEntry(root.value, nodes)];
    }

    /**
     * `chooseBestDollKeyForPano(p)`: try to load the lower floor, the upper
     * floor and the whole house (a failure is ignored), then prefer the model
     * that has a marker of pano `p`.
     */
    method ChooseBestDollKeyForPano(p: int, files: map<DollKey, seq<SceneObject>>) returns (key: DollKey)
      requires Valid()
      modifies this`cache, this`requested
      ensures Valid()
      ensures key == BestKey(cache, p)
      ensures Up !in old(cache) && Up in files && (exists n :: n in NodesOf(files[Up]) && n.panoIndex == p) ==> key == Up
      ensures forall k :: k in cache <==> k in old(cache) || k in files
      ensures forall k :: k in old(cache) ==> cache[k] == old(cache)[k]
      ensures forall k :: k in cache && k !in old(cache) ==> k in files && cache[k].nodes == NodesOf(files[k])
    {
      LoadAllDollModels(files);
      key := BestKey(cache, p);
      if Up !in old(cache) && Up in files && exists n :: n in NodesOf(files[Up]) && n.panoIndex == p {
        ghost var n :| n in cache[Up].nodes && n.panoIndex == p;
        assert Has(cache, Up, p);
      }
    }

    /** The three loads of `chooseBestDollKeyForPano`: lower floor, upper floor, whole house. */
    method LoadAllDollModels(files: map<DollKey, seq<SceneObject>>)
      requires Valid()
      modifies this`cache, this`requested
      ensures Valid()
      ensures forall k :: k in cache <==> k in old(cache) || k in files
      ensures Grows(old(cache), cache, files)
    {
      var r := LoadDollModel(Down, files);
      ghost var c1 := cache;
      r := LoadDollModel(Up, files);
      GrowsTrans(old(cache), c1, cache, files);
      ghost var c2 := cache;
      r := LoadDollModel(Full, files);
      GrowsTrans(old(cache), c2, cache, files);
    }

    /**
     * `ensureReferenceReady`: once, load the whole house as the reference for
     * alignment and framing; `false` when that load fails.
     */
    method EnsureReferenceReady(files: map<DollKey, seq<SceneObject>>) returns (ok: bool)
      requires Valid()
      modifies this`cache, this`requested, this`refReady
      ensures Valid()
      ensures ok <==> old(refReady) || Full in old(cache) || Full in files
      ensures ok ==> refReady && Full in cache
      ensures !ok ==> refReady == old(refReady) && cache == old(cache)
      ensures Grows(old(cache), cache, files)
      ensures forall k :: k in cache && k !in old(cache) ==> k == Full && k in files
    {
      if refReady {
        return true;
      }
      var root := LoadDollModel(Full, files);
      if root.None? {
        return false;
      }
      refReady := true;
      ok := true;
    }

    /**
     * `switchDollhouseModel(key)` in mode `mode`, with the button clicks in
     * `during` arriving while it is suspended. A switch already in progress,
     * or a request for the model already showing, changes nothing; the
     * clicks that arrive meanwhile are swallowed; `switching` is cleared
     * again however the switch ends. A switch succeeds exactly when the
     * reference and the requested model can be had; it then shows the
     * requested model's cached root and plays the wipe that `WipeFor`
     * chooses. A failed switch puts the highlight back on the model showing.
     */
    method SwitchDollhouseModel(key: DollKey, mode: Mode, files: map<DollKey, seq<SceneObject>>, during: seq<DollKey>)
      requires Valid()
      modifies this
      ensures Valid()
      ensures old(switching) || (old(activeKey) == key && old(activeRoot).Some?) ==>
        && cache == old(cache) && requested == old(requested) && activeKey == old(activeKey)
        && activeRoot == old(activeRoot) && switching == old(switching)
        && buttonActive == old(buttonActive) && refReady == old(refReady) && lastWipe == old(lastWipe)
      ensures !old(switching) ==> !switching
      ensures !old(switching) && !(old(activeKey) == key && old(activeRoot).Some?) ==>
        var success := (old(refReady) || Full in old(cache) || Full in files) && (key in old(cache) || key in files);
        && (success ==>
              && key in cache && activeKey == key && activeRoot == Some(cache[key].root)
              && buttonActive == Some(key)
              && lastWipe == WipeFor(mode, old(activeKey), key, old(activeRoot), cache[key].root))
        && (!success ==>
              && activeKey == old(activeKey) && activeRoot == old(activeRoot)
              && buttonActive == Some(old(activeKey)) && lastWipe == old(lastWipe))
      ensures !old(switching) && !(old(activeKey) == key && old(activeRoot).Some?) ==>
        refReady == (old(refReady) || Full in old(cache) || Full in files)
      ensures forall k :: k in old(cache) ==> k in cache && cache[k] == old(cache)[k]
      ensures forall k :: k in cache && k !in old(cache) ==> k in files && cache[k].nodes == NodesOf(files[k])
      ensures forall k :: k in cache ==> k in old(cache) || k == Full || k == key
      decreases if switching then 0 else 3
    {
      if switching || (activeKey == key && activeRoot.Some?) {
        return;
      }
      switching, buttonActive := true, Some(key);
      SwallowClicks(during);
      FinishSwitch(key, mode, files);
    }

    /**
     * The switch after its guard: make sure of the reference model, load the
     * requested one, show it with its wipe; on a failure put the highlight
     * back. `switching` is cleared on every path.
     */
    method FinishSwitch(key: DollKey, mode: Mode, files: map<DollKey, seq<SceneObject>>)
      requires Valid() && switching
      modifies this
      ensures Valid() && !switching && refReady == (old(refReady) || Full in old(cache) || Full in files)
      ensures var success := (old(refReady) || Full in old(cache) || Full in files) && (key in old(cache) || key in files);
        && (success ==>
              && key in cache && activeKey == key && activeRoot == Some(cache[key].root)
              && buttonActive == Some(key)
              && lastWipe == WipeFor(mode, old(activeKey), key, old(activeRoot), cache[key].root))
        && (!success ==>
              && activeKey == old(activeKey) && activeRoot == old(activeRoot)
              && buttonActive == Some(old(activeKey)) && lastWipe == old(lastWipe))
      ensures Grows(old(cache), cache, files)
      ensures forall k :: k in cache ==> k in old(cache) || k == Full || k == key
      decreases 1
    {
      var root := LoadForSwitch(key, files);
      if root.None? {
        buttonActive, switching := Some(activeKey), false;
        return;
      }
      ShowModel(key, root.value, mode);
    }

    /** The switch's success: the requested model becomes the active one, with its wipe. */
    method ShowModel(key: DollKey, root: Root, mode: Mode)
      requires Valid() && key in cache && root == cache[key].root
      modifies this`lastWipe, this`activeKey, this`activeRoot, this`buttonActive, this`switching
      ensures Valid() && !switching
      ensures activeKey == key && activeRoot == Some(root) && buttonActive == Some(key)
      ensures lastWipe == WipeFor(mode, old(activeKey), key, old(activeRoot), root)
    {
      lastWipe := WipeFor(mode, activeKey, key, activeRoot, root);
      activeKey, activeRoot, buttonActive, switching := key, Some(root), Some(key), false;
    }

    /** The loads of a switch: the reference model once, then the requested model. */
    method LoadForSwitch(key: DollKey, files: map<DollKey, seq<SceneObject>>) returns (root: Option<Root>)
      requires Valid()
      modifies this`cache, this`requested, this`refReady
      ensures Valid() && refReady == (old(refReady) || Full in old(cache) || Full in files)
      ensures root.Some? <==> (old(refReady) || Full in old(cache) || Full in files) && (key in old(cache) || key in files)
      ensures root.Some? ==> key in cache && root.value == cache[key].root
      ensures Grows(old(cache), cache, files)
      ensures forall k :: k in cache ==> k in old(cache) || k == Full || k == key
    {
      var ok := EnsureReferenceReady(files);
      if !ok {
        return None;
      }
      ghost var c1 := cache;
      root := LoadDollModel(key, files);
      GrowsTrans(old(cache), c1, cache, files);
    }

    /** Clicks on the model buttons while a switch is in progress change nothing. */
    method SwallowClicks(during: seq<DollKey>)
      requires Valid() && switching
      modifies this
      ensures Valid()
      ensures cache == old(cache) && requested == old(requested) && activeKey == old(activeKey)
      ensures activeRoot == old(activeRoot) && switching && buttonActive == old(buttonActive)
      ensures refReady == old(refReady) && lastWipe == old(lastWipe)
      decreases 2
    {
      var k := 0;
      while k < |during|
        invariant 0 <= k <= |during|
        invariant Valid() && switching
        invariant cache == old(cache) && requested == old(requested) && activeKey == old(activeKey)
        invariant activeRoot == old(activeRoot) && buttonActive == old(buttonActive)
        invariant refReady == old(refReady) && lastWipe == old(lastWipe)
      {
        OnModelButton(during[k], Dollhouse, map[]);
        k := k + 1;
      }
    }

    /** A model button: ignored when it is the highlighted one, otherwise a switch to its model. */
    method OnModelButton(key: DollKey, mode: Mode, files: map<DollKey, seq<SceneObject>>)
      requires Valid()
      modifies this
      ensures Valid()
      ensures old(buttonActive) == Some(key) || old(switching) ==>
        && cache == old(cache) && requested == old(requested) && activeKey == old(activeKey)
        && activeRoot == old(activeRoot) && switching == old(switching)
        && buttonActive == old(buttonActive) && refReady == old(refReady) && lastWipe == old(lastWipe)
      decreases if switching then 1 else 4
    {
      if buttonActive == Some(key) {
        return;
      }
      SwitchDollhouseModel(key, mode, files, []);
    }
  }
}
