/** Helix's naming scheme for a cluster's tree in the coordination store:
    builders that turn a cluster name, a property category and selectors
    into a slash-joined path, and the partial inverse that reads an instance
    name back out of a path.

    Every builder's contract says how its path splits into segments: the
    segments of the path it extends, followed by those it appends. The
    selectors are not checked for separators, so the contracts speak of
    `SplitAll` of each selector: a selector holding `/` adds segments. */
module HelixUtil {
  import opened Wrappers
  import opened JavaStrings
  import opened PropertyTypes

  /** `/<cluster>/<TOKEN>`: the root of one category of a cluster. */
  function PropertyPath(cluster: string, t: PropertyType): (r: string)
    ensures StartsWith(r, "/" + cluster + "/")
    ensures SplitAll(r) == [""] + SplitAll(cluster) + [Token(t)]
  {
    var root := "/" + cluster + "/";
    var r := root + Token(t);
    assert r[..|root|] == root;
    SplitRooted(cluster, Token(t));
    SplitSlashFree(Token(t));
    r
  }

  /** `/<cluster>/INSTANCES/<instance>`: everything one participant owns. */
  function InstancePath(cluster: string, instance: string): (r: string)
    ensures StartsWith(r, MemberInstancesPath(cluster) + "/")
    ensures SplitAll(r) == SplitAll(MemberInstancesPath(cluster)) + SplitAll(instance)
  {
    var r := PropertyPath(cluster, Instances) + "/" + instance;
    SplitConcat(PropertyPath(cluster, Instances), instance);
    r
  }

  /** `/<cluster>/INSTANCES/<instance>/<TOKEN>`: one category of a
      participant's subtree; it extends the instance path by one segment. */
  function InstancePropertyPath(cluster: string, instance: string, t: PropertyType): (r: string)
    ensures r == InstancePath(cluster, instance) + "/" + Token(t)
    ensures SplitAll(r) == SplitAll(InstancePath(cluster, instance)) + [Token(t)]
  {
    var r := PropertyPath(cluster, Instances) + "/" + instance + "/" + Token(t);
    SplitConcat(InstancePath(cluster, instance), Token(t));
    SplitSlashFree(Token(t));
    r
  }

  /** A cluster-scoped category root with one selector appended. */
  function CategoryEntryPath(cluster: string, t: PropertyType, key: string): (r: string)
    ensures StartsWith(r, PropertyPath(cluster, t) + "/")
    ensures SplitAll(r) == SplitAll(PropertyPath(cluster, t)) + SplitAll(key)
  {
    var r := PropertyPath(cluster, t) + "/" + key;
    SplitConcat(PropertyPath(cluster, t), key);
    r
  }

  /** `/<cluster>/IDEALSTATES/<resource>`. */
  function IdealStatePath(cluster: string, resource: string): (r: string)
    ensures StartsWith(r, IdealStatesPath(cluster) + "/")
    ensures SplitAll(r) == SplitAll(IdealStatesPath(cluster)) + SplitAll(resource)
  {
    CategoryEntryPath(cluster, IdealStates, resource)
  }

  /** `/<cluster>/IDEALSTATES`. */
  function IdealStatesPath(cluster: string): (r: string)
    ensures SplitAll(r) == [""] + SplitAll(cluster) + [Token(IdealStates)]
  {
    PropertyPath(cluster, IdealStates)
  }

  /** `/<cluster>/LIVEINSTANCES`. */
  function LiveInstancesPath(cluster: string): (r: string)
    ensures SplitAll(r) == [""] + SplitAll(cluster) + [Token(LiveInstances)]
  {
    PropertyPath(cluster, LiveInstances)
  }

  /** `/<cluster>/INSTANCES/<instance>/MESSAGES`. */
  function MessagePath(cluster: string, instance: string): (r: string)
    ensures StartsWith(r, InstancePath(cluster, instance) + "/")
    ensures SplitAll(r) == SplitAll(InstancePath(cluster, instance)) + [Token(Messages)]
  {
    InstancePropertyPath(cluster, instance, Messages)
  }

  /** `/<cluster>/INSTANCES/<instance>/CURRENTSTATES`. */
  function CurrentStateBasePath(cluster: string, instance: string): (r: string)
    ensures StartsWith(r, InstancePath(cluster, instance) + "/")
    ensures SplitAll(r) == SplitAll(InstancePath(cluster, instance)) + [Token(CurrentStates)]
  {
    InstancePropertyPath(cluster, instance, CurrentStates)
  }

  /** `/<cluster>/INSTANCES/<instance>/CURRENTSTATES/<session>/<key>`: current
      states are bucketed first by session, then by state-unit key. */
  function CurrentStatePath(cluster: string, instance: string, session: string, key: string): (r: string)
    ensures r == CurrentStateBasePath(cluster, instance) + "/" + session + "/" + key
    ensures SplitAll(r) ==
            SplitAll(CurrentStateBasePath(cluster, instance)) + SplitAll(session) + SplitAll(key)
  {
    var base := InstancePropertyPath(cluster, instance, CurrentStates);
    var r := base + "/" + session + "/" + key;
    SplitConcat(base, session);
    SplitConcat(base + "/" + session, key);
    r
  }

  /** `/<cluster>/EXTERNALVIEW`. */
  function ExternalViewsPath(cluster: string): (r: string)
    ensures SplitAll(r) == [""] + SplitAll(cluster) + [Token(ExternalView)]
  {
    PropertyPath(cluster, ExternalView)
  }

  /** `/<cluster>/STATEMODELDEFS`. */
  function StateModelDefinitionPath(cluster: string): (r: string)
    ensures SplitAll(r) == [""] + SplitAll(cluster) + [Token(StateModelDefs)]
  {
    PropertyPath(cluster, StateModelDefs)
  }

  /** `/<cluster>/EXTERNALVIEW/<resource>`. */
  function ExternalViewPath(cluster: string, resource: string): (r: string)
    ensures StartsWith(r, ExternalViewsPath(cluster) + "/")
    ensures SplitAll(r) == SplitAll(ExternalViewsPath(cluster)) + SplitAll(resource)
  {
    CategoryEntryPath(cluster, ExternalView, resource)
  }

  /** `/<cluster>/LIVEINSTANCES/<instance>`: a liveness node sits flat under
      the cluster-wide LIVEINSTANCES root, not inside the instance's subtree. */
  function LiveInstancePath(cluster: string, instance: string): (r: string)
    ensures StartsWith(r, LiveInstancesPath(cluster) + "/")
    ensures SplitAll(r) == SplitAll(LiveInstancesPath(cluster)) + SplitAll(instance)
  {
    CategoryEntryPath(cluster, LiveInstances, instance)
  }

  /** `/<cluster>/INSTANCES`. */
  function MemberInstancesPath(cluster: string): (r: string)
    ensures SplitAll(r) == [""] + SplitAll(cluster) + [Token(Instances)]
  {
    PropertyPath(cluster, Instances)
  }

  /** `/<cluster>/INSTANCES/<instance>/ERRORS`. */
  function ErrorsPath(cluster: string, instance: string): (r: string)
    ensures StartsWith(r, InstancePath(cluster, instance) + "/")
    ensures SplitAll(r) == SplitAll(InstancePath(cluster, instance)) + [Token(Errors)]
  {
    InstancePropertyPath(cluster, instance, Errors)
  }

  /** `/<cluster>/INSTANCES/<instance>/STATUSUPDATES`. */
  function StatusUpdatesPath(cluster: string, instance: string): (r: string)
    ensures StartsWith(r, InstancePath(cluster, instance) + "/")
    ensures SplitAll(r) == SplitAll(InstancePath(cluster, instance)) + [Token(StatusUpdates)]
  {
    InstancePropertyPath(cluster, instance, StatusUpdates)
  }

  /** `/<cluster>/CONTROLLER`: the distributed controller's root. */
  function ControllerPath(cluster: string): (r: string)
    ensures SplitAll(r) == [""] + SplitAll(cluster) + [Token(Controller)]
  {
    PropertyPath(cluster, Controller)
  }

  /** For single-segment names, a category root splits into exactly the
      empty leading piece, the cluster and the token. */
  lemma RootSegments(cluster: string, t: PropertyType)
    requires SlashFree(cluster)
    ensures SplitAll(PropertyPath(cluster, t)) == ["", cluster, Token(t)]
  {
    SplitSlashFree(cluster);
  }

  /** For single-segment names, the instance path splits into exactly four
      pieces, the instance name last. */
  lemma InstanceSegments(cluster: string, instance: string)
    requires SlashFree(cluster) && SlashFree(instance)
    ensures SplitAll(InstancePath(cluster, instance)) == ["", cluster, Token(Instances), instance]
  {
    RootSegments(cluster, Instances);
    SplitSlashFree(instance);
  }

  /** For single-segment names, an entry path splits into four pieces, the
      key last. */
  lemma CategoryEntryPathSegments(cluster: string, t: PropertyType, key: string)
    requires SlashFree(cluster) && SlashFree(key)
    ensures SplitAll(CategoryEntryPath(cluster, t, key)) == ["", cluster, Token(t), key]
  {
    RootSegments(cluster, t);
    SplitSlashFree(key);
  }

  /** For single-segment names, the current-state directory of an instance
      splits into five pieces. */
  lemma CurrentStateBaseSegments(cluster: string, instance: string)
    requires SlashFree(cluster) && SlashFree(instance)
    ensures SplitAll(CurrentStateBasePath(cluster, instance))
            == ["", cluster, Token(Instances), instance, Token(CurrentStates)]
  {
    InstanceSegments(cluster, instance);
  }

  /** For single-segment names, a current-state path splits into seven
      pieces, session and key last. */
  lemma CurrentStatePathSegments(cluster: string, instance: string, session: string, key: string)
    requires SlashFree(cluster) && SlashFree(instance) && SlashFree(session) && SlashFree(key)
    ensures SplitAll(CurrentStatePath(cluster, instance, session, key))
            == ["", cluster, Token(Instances), instance, Token(CurrentStates), session, key]
  {
    var base := SplitAll(CurrentStateBasePath(cluster, instance));
    CurrentStateBaseSegments(cluster, instance);
    SplitSlashFree(session);
    SplitSlashFree(key);
    assert SplitAll(CurrentStatePath(cluster, instance, session, key)) == base + [session] + [key];
  }

  /** Entry paths stay under their cluster's directory. */
  lemma CategoryEntryPathUnderCluster(cluster: string, t: PropertyType, key: string)
    ensures StartsWith(CategoryEntryPath(cluster, t, key), "/" + cluster + "/")
  {
    StartsWithExtend(PropertyPath(cluster, t), "/" + cluster + "/", "/");
    StartsWithTrans(CategoryEntryPath(cluster, t, key), PropertyPath(cluster, t) + "/", "/" + cluster + "/");
  }

  /** Instance paths stay under their cluster's directory. */
  lemma InstancePathUnderCluster(cluster: string, instance: string)
    ensures StartsWith(InstancePath(cluster, instance), "/" + cluster + "/")
  {
    StartsWithExtend(MemberInstancesPath(cluster), "/" + cluster + "/", "/");
    StartsWithTrans(InstancePath(cluster, instance), MemberInstancesPath(cluster) + "/", "/" + cluster + "/");
  }

  /** Per-instance category paths stay under their cluster's directory. */
  lemma InstancePropertyPathUnderCluster(cluster: string, instance: string, t: PropertyType)
    ensures StartsWith(InstancePropertyPath(cluster, instance, t), "/" + cluster + "/")
  {
    InstancePathUnderCluster(cluster, instance);
    StartsWithExtend(InstancePath(cluster, instance), "/" + cluster + "/", "/" + Token(t));
  }

  /** Current-state paths stay under their cluster's directory. */
  lemma CurrentStatePathUnderCluster(cluster: string, instance: string, session: string, key: string)
    ensures StartsWith(CurrentStatePath(cluster, instance, session, key), "/" + cluster + "/")
  {
    InstancePropertyPathUnderCluster(cluster, instance, CurrentStates);
    StartsWithExtend(CurrentStateBasePath(cluster, instance), "/" + cluster + "/", "/" + session + "/" + key);
  }

  /** The text whose presence makes the extractor read a path: the
      `INSTANCES` token with a separator on each side. */
  function InstancesMarker(): string {
    "/" + Token(Instances) + "/"
  }

  /** Recovers the instance name from a path. The path is read only if it
      contains `/INSTANCES/`, and then at a fixed offset: the answer is
      piece 3 of the split, wherever the marker was found. */
  function InstanceNameFromPath(path: string): (r: Option<string>)
    ensures !Contains(path, InstancesMarker()) ==> r == None
    ensures r.Some? ==> 3 < |SplitAll(path)| && r.value == SplitAll(path)[3]
    ensures r.Some? ==> SlashFree(r.value)
  {
    if Contains(path, InstancesMarker()) then
      var parts := Split(path);
      if |parts| > 3 then Some(parts[3]) else None
    else
      None
  }

  /** No piece strictly inside the path is `INSTANCES`, so nothing is read. */
  lemma NoMarkerNoInstance(path: string)
    requires forall j :: 0 < j < |SplitAll(path)| - 1 ==> SplitAll(path)[j] != Token(Instances)
    ensures InstanceNameFromPath(path) == None
  {
    if Contains(path, InstancesMarker()) {
      var j := OccurrenceIsSegment(path, Token(Instances));
    }
  }

  /** The marker is present and some piece from index 3 on is non-empty, so
      the extractor returns piece 3. */
  lemma ReadsPieceThree(path: string, m: nat)
    requires Contains(path, InstancesMarker())
    requires 3 <= m < |SplitAll(path)| && SplitAll(path)[m] != ""
    ensures InstanceNameFromPath(path) == Some(SplitAll(path)[3])
  {
    SplitSlashFree(path);
    var parts := Split(path);
    assert m < |parts|;
  }

  /** The marker is present, but nothing follows the `INSTANCES` piece
      except empty pieces, so nothing is read. */
  lemma ShortPathNoInstance(path: string)
    requires forall m :: 3 <= m < |SplitAll(path)| ==> SplitAll(path)[m] == ""
    ensures InstanceNameFromPath(path) == None
  {
    SplitSlashFree(path);
  }

  /** The extractor's answer, both ways: a value comes back exactly when the
      marker is present and some piece from index 3 on is non-empty. */
  lemma InstanceNameFromPathIff(path: string)
    ensures InstanceNameFromPath(path).Some? <==>
            Contains(path, InstancesMarker()) &&
            exists m :: 3 <= m < |SplitAll(path)| && SplitAll(path)[m] != ""
  {
    if Contains(path, InstancesMarker()) && exists m :: 3 <= m < |SplitAll(path)| && SplitAll(path)[m] != "" {
      var m :| 3 <= m < |SplitAll(path)| && SplitAll(path)[m] != "";
      ReadsPieceThree(path, m);
    } else if Contains(path, InstancesMarker()) {
      ShortPathNoInstance(path);
    }
  }

  /** A lone separator as instance name: `/<cluster>/INSTANCES//` splits into
      five pieces, but only three survive, so no instance is read. */
  lemma SlashInstanceNoInstance(cluster: string)
    requires SlashFree(cluster)
    ensures InstanceNameFromPath(InstancePath(cluster, "/")) == None
  {
    RootSegments(cluster, Instances);
    assert SplitAll("/") == ["", ""] by {
      SplitConcat("", "");
      assert "" + "/" + "" == "/";
    }
    assert SplitAll(InstancePath(cluster, "/")) == ["", cluster, Token(Instances), "", ""];
    ShortPathNoInstance(InstancePath(cluster, "/"));
  }

  /** Distinct (cluster, category) pairs give distinct roots, whatever the
      cluster holds: the token is the last piece, since it holds no
      separator, and the cluster is the text between the first separator and
      the token. */
  lemma PropertyPathInjective(c1: string, t1: PropertyType, c2: string, t2: PropertyType)
    ensures PropertyPath(c1, t1) == PropertyPath(c2, t2) <==> c1 == c2 && t1 == t2
  {
    if PropertyPath(c1, t1) == PropertyPath(c2, t2) {
      RootLastPiece(c1, t1);
      RootLastPiece(c2, t2);
      TokenInjective(t1, t2);
      RootCluster(c1, t1);
      RootCluster(c2, t2);
      assert |c1| == |c2|;
      assert c1 == PropertyPath(c2, t2)[1..1 + |c2|];
    }
  }

  /** The last piece of a category root is its token. */
  lemma RootLastPiece(cluster: string, t: PropertyType)
    ensures var pieces := SplitAll(PropertyPath(cluster, t)); pieces[|pieces| - 1] == Token(t)
  {
  }

  /** The cluster of a category root sits right after the first separator,
      and fixes the root's length together with the token. */
  lemma RootCluster(cluster: string, t: PropertyType)
    ensures |PropertyPath(cluster, t)| == |cluster| + 2 + |Token(t)|
    ensures PropertyPath(cluster, t)[1..1 + |cluster|] == cluster
  {
    var r := PropertyPath(cluster, t);
    assert r == "/" + cluster + "/" + Token(t);
    ConcatAssoc("/" + cluster, "/", Token(t));
    SliceOfConcat("/", cluster, "/" + Token(t));
  }

  /** Round trip: the instance path yields its instance name back. */
  lemma InstancePathRoundTrip(cluster: string, instance: string)
    requires SlashFree(cluster) && SlashFree(instance) && instance != ""
    ensures InstanceNameFromPath(InstancePath(cluster, instance)) == Some(instance)
  {
    var path := InstancePath(cluster, instance);
    InstanceSegments(cluster, instance);
    SegmentIsOccurrence(path, Token(Instances), 2);
    ReadsPieceThree(path, 3);
  }

  /** Round trip: any category of an instance's subtree yields the instance
      name back; the name need not be non-empty here, as the token follows. */
  lemma InstancePropertyPathRoundTrip(cluster: string, instance: string, t: PropertyType)
    requires SlashFree(cluster) && SlashFree(instance)
    ensures InstanceNameFromPath(InstancePropertyPath(cluster, instance, t)) == Some(instance)
  {
    var path := InstancePropertyPath(cluster, instance, t);
    InstanceSegments(cluster, instance);
    assert SplitAll(path) == ["", cluster, Token(Instances), instance, Token(t)];
    SegmentIsOccurrence(path, Token(Instances), 2);
    ReadsPieceThree(path, 4);
  }

  /** Round trip through the message path. */
  lemma MessagePathRoundTrip(cluster: string, instance: string)
    requires SlashFree(cluster) && SlashFree(instance)
    ensures InstanceNameFromPath(MessagePath(cluster, instance)) == Some(instance)
  {
    InstancePropertyPathRoundTrip(cluster, instance, Messages);
  }

  /** Round trip through a current-state path, whatever the session and key
      hold: the name sits before them. */
  lemma CurrentStatePathRoundTrip(cluster: string, instance: string, session: string, key: string)
    requires SlashFree(cluster) && SlashFree(instance)
    ensures InstanceNameFromPath(CurrentStatePath(cluster, instance, session, key)) == Some(instance)
  {
    var path := CurrentStatePath(cluster, instance, session, key);
    CurrentStatePathPieces(cluster, instance, session, key);
    SegmentIsOccurrence(path, Token(Instances), 2);
    ReadsPieceThree(path, 4);
  }

  /** The pieces of a current-state path that the extractor looks at, for
      any session and key. */
  lemma CurrentStatePathPieces(cluster: string, instance: string, session: string, key: string)
    requires SlashFree(cluster) && SlashFree(instance)
    ensures var pieces := SplitAll(CurrentStatePath(cluster, instance, session, key));
            && |pieces| >= 7
            && pieces[2] == Token(Instances)
            && pieces[3] == instance
            && pieces[4] == Token(CurrentStates)
  {
    var base := SplitAll(CurrentStateBasePath(cluster, instance));
    var pieces := SplitAll(CurrentStatePath(cluster, instance, session, key));
    CurrentStateBaseSegments(cluster, instance);
    assert pieces == base + SplitAll(session) + SplitAll(key);
    assert pieces[2] == base[2] && pieces[3] == base[3] && pieces[4] == base[4];
  }

  /** A category root is never read: either no piece inside it is
      `INSTANCES`, or it has only three pieces. */
  lemma PropertyPathNoInstance(cluster: string, t: PropertyType)
    requires SlashFree(cluster)
    ensures InstanceNameFromPath(PropertyPath(cluster, t)) == None
  {
    RootSegments(cluster, t);
    ShortPathNoInstance(PropertyPath(cluster, t));
  }

  /** A category root with a selector, for any category but INSTANCES and a
      cluster not named `INSTANCES`, has no `INSTANCES` piece inside it, so
      no instance is read from it. */
  lemma CategoryEntryPathNoInstance(cluster: string, t: PropertyType, key: string)
    requires SlashFree(cluster) && SlashFree(key)
    requires cluster != Token(Instances) && t != Instances
    ensures InstanceNameFromPath(CategoryEntryPath(cluster, t, key)) == None
  {
    RootSegments(cluster, t);
    SplitSlashFree(key);
    TokenInjective(t, Instances);
    assert SplitAll(CategoryEntryPath(cluster, t, key)) == ["", cluster, Token(t), key];
    NoMarkerNoInstance(CategoryEntryPath(cluster, t, key));
  }

  /** Nothing stops a selector from holding the marker: a resource name
      `x/INSTANCES/y` makes an ideal-state path yield `x`, in any cluster,
      because the marker is looked for anywhere and piece 3 is read. */
  lemma IdealStateResourceWithMarker(cluster: string, x: string, y: string)
    requires SlashFree(cluster) && SlashFree(x) && SlashFree(y)
    ensures InstanceNameFromPath(IdealStatePath(cluster, x + "/" + Token(Instances) + "/" + y)) == Some(x)
  {
    var path := IdealStatePath(cluster, x + "/" + Token(Instances) + "/" + y);
    IdealStateResourceSegments(cluster, x, y);
    SegmentIsOccurrence(path, Token(Instances), 4);
    ReadsPieceThree(path, 4);
  }

  /** The resource `x/INSTANCES/y` adds three pieces to the ideal-states
      root. */
  lemma IdealStateResourceSegments(cluster: string, x: string, y: string)
    requires SlashFree(cluster) && SlashFree(x) && SlashFree(y)
    ensures SplitAll(IdealStatePath(cluster, x + "/" + Token(Instances) + "/" + y))
            == ["", cluster, Token(IdealStates), x, Token(Instances), y]
  {
    var resource := x + "/" + Token(Instances) + "/" + y;
    var root := SplitAll(PropertyPath(cluster, IdealStates));
    RootSegments(cluster, IdealStates);
    SplitThree(x, Token(Instances), y);
    assert IdealStatePath(cluster, resource) == CategoryEntryPath(cluster, IdealStates, resource);
    assert SplitAll(CategoryEntryPath(cluster, IdealStates, resource)) == root + [x, Token(Instances), y];
  }

  /** A cluster name holding a separator shifts every piece: the instance
      path of `x/y` yields the text `INSTANCES`, whatever the instance. */
  lemma SplitClusterReadsMarker(x: string, y: string, instance: string)
    requires SlashFree(x) && SlashFree(y) && SlashFree(instance)
    ensures InstanceNameFromPath(InstancePath(x + "/" + y, instance)) == Some(Token(Instances))
  {
    var cluster := x + "/" + y;
    var path := InstancePath(cluster, instance);
    SplitConcat(x, y);
    SplitSlashFree(x);
    SplitSlashFree(y);
    SplitSlashFree(instance);
    assert SplitAll(cluster) == [x, y];
    assert SplitAll(path) == ["", x, y, Token(Instances), instance];
    SegmentIsOccurrence(path, Token(Instances), 3);
    ReadsPieceThree(path, 3);
  }

  /** The fixed-offset read: under a cluster literally named `INSTANCES`,
      every category root with a non-empty selector is read, and the
      selector comes back, though no instance subtree is involved. The two
      cases are proved separately, each in a small proof of its own. */
  lemma CategoryEntryPathFixedOffset(t: PropertyType, key: string)
    requires SlashFree(key)
    ensures key != "" ==> InstanceNameFromPath(CategoryEntryPath(Token(Instances), t, key)) == Some(key)
    ensures key == "" ==> InstanceNameFromPath(CategoryEntryPath(Token(Instances), t, key)) == None
  {
    if key != "" {
      InstancesClusterEntryRead(t, key);
    } else {
      InstancesClusterEntryEmpty(t);
    }
  }

  /** The non-empty case of `CategoryEntryPathFixedOffset`. */
  lemma InstancesClusterEntryRead(t: PropertyType, key: string)
    requires SlashFree(key) && key != ""
    ensures InstanceNameFromPath(CategoryEntryPath(Token(Instances), t, key)) == Some(key)
  {
    InstancesClusterEntry(t, key);
    ReadsPieceThree(CategoryEntryPath(Token(Instances), t, key), 3);
  }

  /** The empty case of `CategoryEntryPathFixedOffset`. */
  lemma InstancesClusterEntryEmpty(t: PropertyType)
    ensures InstanceNameFromPath(CategoryEntryPath(Token(Instances), t, "")) == None
  {
    var path := CategoryEntryPath(Token(Instances), t, "");
    var pieces := SplitAll(path);
    CategoryEntryPathSegments(Token(Instances), t, "");
    assert |pieces| == 4 && pieces[3] == "";
    forall m | 3 <= m < |pieces|
      ensures pieces[m] == ""
    {
      assert m == 3;
    }
    ShortPathNoInstance(path);
  }

  /** Under a cluster named `INSTANCES`, an entry path carries the marker and
      splits into four pieces. */
  lemma InstancesClusterEntry(t: PropertyType, key: string)
    requires SlashFree(key)
    ensures Contains(CategoryEntryPath(Token(Instances), t, key), InstancesMarker())
    ensures SplitAll(CategoryEntryPath(Token(Instances), t, key)) == ["", Token(Instances), Token(t), key]
  {
    var path := CategoryEntryPath(Token(Instances), t, key);
    CategoryEntryPathSegments(Token(Instances), t, key);
    SegmentIsOccurrence(path, Token(Instances), 1);
  }

  /** An ideal-state path yields no instance unless the cluster is named
      `INSTANCES`. */
  lemma IdealStatePathNoInstance(cluster: string, resource: string)
    requires SlashFree(cluster) && SlashFree(resource) && cluster != Token(Instances)
    ensures InstanceNameFromPath(IdealStatePath(cluster, resource)) == None
  {
    CategoryEntryPathNoInstance(cluster, IdealStates, resource);
  }

  /** `/<cluster>/INSTANCES/` contains the marker but splits into only three
      pieces once the trailing empty one is dropped: no instance. */
  lemma EmptyInstanceNoInstance(cluster: string)
    requires SlashFree(cluster)
    ensures InstancePath(cluster, "") == MemberInstancesPath(cluster) + "/"
    ensures InstanceNameFromPath(InstancePath(cluster, "")) == None
  {
    RootSegments(cluster, Instances);
    assert SplitAll("") == [""];
    assert SplitAll(InstancePath(cluster, "")) == ["", cluster, Token(Instances), ""];
    ShortPathNoInstance(InstancePath(cluster, ""));
  }

  /** A cluster literally named `INSTANCES` makes a live-instance path look
      like an instance path: the instance name is returned. */
  lemma LiveInstancePathFixedOffset(instance: string)
    requires SlashFree(instance) && instance != ""
    ensures InstanceNameFromPath(LiveInstancePath(Token(Instances), instance)) == Some(instance)
  {
    CategoryEntryPathFixedOffset(LiveInstances, instance);
  }

  /** For any other cluster a live-instance path yields no instance. */
  lemma LiveInstancePathNoInstance(cluster: string, instance: string)
    requires SlashFree(cluster) && SlashFree(instance) && cluster != Token(Instances)
    ensures InstanceNameFromPath(LiveInstancePath(cluster, instance)) == None
  {
    CategoryEntryPathNoInstance(cluster, LiveInstances, instance);
  }

  /** The liveness node and the instance's LIVEINSTANCES child are different
      nodes, for every cluster and instance name. */
  lemma LiveInstanceFlatNotNested(cluster: string, instance: string)
    ensures LiveInstancePath(cluster, instance) != InstancePropertyPath(cluster, instance, LiveInstances)
  {
    assert |LiveInstancePath(cluster, instance)| < |InstancePropertyPath(cluster, instance, LiveInstances)|;
  }

  /** The text of a current-state path, one piece at a time. */
  lemma CurrentStatePathText(cluster: string, instance: string, session: string, key: string)
    ensures CurrentStatePath(cluster, instance, session, key)
            == "/" + cluster + "/" + "INSTANCES" + "/" + instance + "/" + "CURRENTSTATES"
               + "/" + session + "/" + key
  {
  }

  /** The text of a message path, one piece at a time. */
  lemma MessagePathText(cluster: string, instance: string)
    ensures MessagePath(cluster, instance)
            == "/" + cluster + "/" + "INSTANCES" + "/" + instance + "/" + "MESSAGES"
  {
  }

  /** Literal text: the example participant's directory. */
  lemma NodeExampleText()
    ensures "/" + "myCluster" + "/" + "INSTANCES" + "/" + "node1" == "/myCluster/INSTANCES/node1"
  {
    assert "/" + "myCluster" == "/myCluster";
    assert "/myCluster" + "/" == "/myCluster/";
    assert "/myCluster/" + "INSTANCES" == "/myCluster/INSTANCES";
    assert "/myCluster/INSTANCES" + "/" == "/myCluster/INSTANCES/";
  }

  /** Literal text: the pieces of the example current-state path. */
  lemma CurrentStateExampleText()
    ensures "/" + "myCluster" + "/" + "INSTANCES" + "/" + "node1" + "/" + "CURRENTSTATES"
            + "/" + "session42" + "/" + "db_0"
            == "/myCluster/INSTANCES/node1/CURRENTSTATES/session42/db_0"
  {
    NodeExampleText();
    assert "/myCluster/INSTANCES/node1" + "/" == "/myCluster/INSTANCES/node1/";
    assert "/myCluster/INSTANCES/node1/" + "CURRENTSTATES" == "/myCluster/INSTANCES/node1/CURRENTSTATES";
    assert "/myCluster/INSTANCES/node1/CURRENTSTATES" + "/" == "/myCluster/INSTANCES/node1/CURRENTSTATES/";
    assert "/myCluster/INSTANCES/node1/CURRENTSTATES/" + "session42"
           == "/myCluster/INSTANCES/node1/CURRENTSTATES/session42";
    assert "/myCluster/INSTANCES/node1/CURRENTSTATES/session42" + "/"
           == "/myCluster/INSTANCES/node1/CURRENTSTATES/session42/";
  }

  /** Literal text: the pieces of the example message path. */
  lemma MessageExampleText()
    ensures "/" + "myCluster" + "/" + "INSTANCES" + "/" + "node1" + "/" + "MESSAGES"
            == "/myCluster/INSTANCES/node1/MESSAGES"
  {
    NodeExampleText();
    assert "/myCluster/INSTANCES/node1" + "/" == "/myCluster/INSTANCES/node1/";
  }

  /** Literal text: the pieces of the example ideal-state path. */
  lemma IdealStateExampleText()
    ensures "/" + "clusterX" + "/" + "IDEALSTATES" + "/" + "resourceY"
            == "/clusterX/IDEALSTATES/resourceY"
  {
    assert "/" + "clusterX" == "/clusterX";
    assert "/clusterX" + "/" == "/clusterX/";
    assert "/clusterX/" + "IDEALSTATES" == "/clusterX/IDEALSTATES";
    assert "/clusterX/IDEALSTATES" + "/" == "/clusterX/IDEALSTATES/";
  }

  /** Session-then-key bucketing, spelled out for one participant. */
  lemma CurrentStatePathExample()
    ensures CurrentStatePath("myCluster", "node1", "session42", "db_0")
            == "/myCluster/INSTANCES/node1/CURRENTSTATES/session42/db_0"
  {
    CurrentStatePathText("myCluster", "node1", "session42", "db_0");
    CurrentStateExampleText();
  }

  lemma MessageExamplePath()
    ensures MessagePath("myCluster", "node1") == "/myCluster/INSTANCES/node1/MESSAGES"
  {
    MessagePathText("myCluster", "node1");
    MessageExampleText();
  }

  lemma MessageExampleName()
    ensures InstanceNameFromPath(MessagePath("myCluster", "node1")) == Some("node1")
  {
    assert SlashFree("myCluster") && SlashFree("node1");
    MessagePathRoundTrip("myCluster", "node1");
  }

  lemma IdealStateExamplePath()
    ensures IdealStatePath("clusterX", "resourceY") == "/clusterX/IDEALSTATES/resourceY"
  {
    assert IdealStatePath("clusterX", "resourceY")
           == "/" + "clusterX" + "/" + "IDEALSTATES" + "/" + "resourceY";
    IdealStateExampleText();
  }

  lemma IdealStateExampleName()
    ensures InstanceNameFromPath(IdealStatePath("clusterX", "resourceY")) == None
  {
    assert SlashFree("clusterX") && SlashFree("resourceY");
    IdealStatePathNoInstance("clusterX", "resourceY");
  }

  /** The extractor on a concrete message path. */
  lemma MessagePathExample()
    ensures InstanceNameFromPath("/myCluster/INSTANCES/node1/MESSAGES") == Some("node1")
  {
    MessageExamplePath();
    MessageExampleName();
  }

  /** The extractor on a concrete ideal-state path. */
  lemma IdealStatePathExample()
    ensures InstanceNameFromPath("/clusterX/IDEALSTATES/resourceY") == None
  {
    IdealStateExamplePath();
    IdealStateExampleName();
  }
}
