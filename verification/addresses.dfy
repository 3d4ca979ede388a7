/** Every path the builders produce, as one closed variant type: a category
    root, a category root with one selector, a category of one instance's
    subtree, or a current-state bucket. Over this type the scheme is
    injective, and the extractor's answer is the instance the address names,
    except for a cluster literally named `INSTANCES`. */
module Addresses {
  import opened Wrappers
  import opened JavaStrings
  import opened PropertyTypes
  import opened HelixUtil

  datatype Address =
    | CategoryRoot(cluster: string, category: PropertyType)
    | CategoryEntry(cluster: string, category: PropertyType, key: string)
    | InstanceCategory(cluster: string, instance: string, category: PropertyType)
    | CurrentState(cluster: string, instance: string, session: string, key: string)

  /** The segments an address stands for, after the leading empty one. */
  function Segments(a: Address): seq<string> {
    match a
    case CategoryRoot(c, t) => [c, Token(t)]
    case CategoryEntry(c, t, k) => [c, Token(t), k]
    case InstanceCategory(c, i, t) => [c, Token(Instances), i, Token(t)]
    case CurrentState(c, i, s, k) => [c, Token(Instances), i, Token(CurrentStates), s, k]
  }

  /** Every name and selector is a single segment. */
  predicate WellFormed(a: Address) {
    && SlashFree(a.cluster)
    && (a.CategoryEntry? ==> SlashFree(a.key))
    && (a.InstanceCategory? || a.CurrentState? ==> SlashFree(a.instance))
    && (a.CurrentState? ==> SlashFree(a.session) && SlashFree(a.key))
  }

  /** The path of an address, built by the Helix builders. */
  function Render(a: Address): (r: string)
    ensures WellFormed(a) ==> SplitAll(r) == [""] + Segments(a)
  {
    match a
    case CategoryRoot(c, t) =>
      SplitSlashFree(c);
      PropertyPath(c, t)
    case CategoryEntry(c, t, k) =>
      CategoryEntrySegments(c, t, k);
      CategoryEntryPath(c, t, k)
    case InstanceCategory(c, i, t) =>
      InstanceCategorySegments(c, i, t);
      InstancePropertyPath(c, i, t)
    case CurrentState(c, i, s, k) =>
      CurrentStateSegments(c, i, s, k);
      CurrentStatePath(c, i, s, k)
  }

  // The three lemmas below restate the HelixUtil segment lemmas as
  // implications, so that `Render` can call them for every address,
  // well-formed or not.
  lemma CategoryEntrySegments(c: string, t: PropertyType, k: string)
    ensures SlashFree(c) && SlashFree(k) ==>
            SplitAll(CategoryEntryPath(c, t, k)) == ["", c, Token(t), k]
  {
    if SlashFree(c) && SlashFree(k) {
      CategoryEntryPathSegments(c, t, k);
    }
  }

  lemma InstanceCategorySegments(c: string, i: string, t: PropertyType)
    ensures SlashFree(c) && SlashFree(i) ==>
            SplitAll(InstancePropertyPath(c, i, t)) == ["", c, Token(Instances), i, Token(t)]
  {
    if SlashFree(c) && SlashFree(i) {
      InstanceSegments(c, i);
    }
  }

  lemma CurrentStateSegments(c: string, i: string, s: string, k: string)
    ensures SlashFree(c) && SlashFree(i) && SlashFree(s) && SlashFree(k) ==>
            SplitAll(CurrentStatePath(c, i, s, k))
            == ["", c, Token(Instances), i, Token(CurrentStates), s, k]
  {
    if SlashFree(c) && SlashFree(i) && SlashFree(s) && SlashFree(k) {
      CurrentStatePathSegments(c, i, s, k);
    }
  }

  /** The instance an address belongs to, read from its structure. */
  function InstanceOf(a: Address): Option<string> {
    match a
    case CategoryRoot(_, _) => None
    case CategoryEntry(_, t, k) => if t == Instances then Some(k) else None
    case InstanceCategory(_, i, _) => Some(i)
    case CurrentState(_, i, _, _) => Some(i)
  }

  /** Each named builder is the rendering of one address. */
  lemma BuildersRender(cluster: string, instance: string, resource: string, session: string, key: string)
    ensures InstancePath(cluster, instance) == Render(CategoryEntry(cluster, Instances, instance))
    ensures IdealStatePath(cluster, resource) == Render(CategoryEntry(cluster, IdealStates, resource))
    ensures ExternalViewPath(cluster, resource) == Render(CategoryEntry(cluster, ExternalView, resource))
    ensures LiveInstancePath(cluster, instance) == Render(CategoryEntry(cluster, LiveInstances, instance))
    ensures IdealStatesPath(cluster) == Render(CategoryRoot(cluster, IdealStates))
    ensures LiveInstancesPath(cluster) == Render(CategoryRoot(cluster, LiveInstances))
    ensures ExternalViewsPath(cluster) == Render(CategoryRoot(cluster, ExternalView))
    ensures StateModelDefinitionPath(cluster) == Render(CategoryRoot(cluster, StateModelDefs))
    ensures MemberInstancesPath(cluster) == Render(CategoryRoot(cluster, Instances))
    ensures ControllerPath(cluster) == Render(CategoryRoot(cluster, Controller))
    ensures MessagePath(cluster, instance) == Render(InstanceCategory(cluster, instance, Messages))
    ensures CurrentStateBasePath(cluster, instance) == Render(InstanceCategory(cluster, instance, CurrentStates))
    ensures ErrorsPath(cluster, instance) == Render(InstanceCategory(cluster, instance, Errors))
    ensures StatusUpdatesPath(cluster, instance) == Render(InstanceCategory(cluster, instance, StatusUpdates))
    ensures CurrentStatePath(cluster, instance, session, key) == Render(CurrentState(cluster, instance, session, key))
  {
  }

  /** Every path the scheme produces starts with `/<cluster>/`, whatever the
      selectors hold. */
  lemma RenderStartsWithCluster(a: Address)
    ensures StartsWith(Render(a), "/" + a.cluster + "/")
  {
    match a
    case CategoryRoot(_, _) =>
    case CategoryEntry(c, t, k) => CategoryEntryPathUnderCluster(c, t, k);
    case InstanceCategory(c, i, t) => InstancePropertyPathUnderCluster(c, i, t);
    case CurrentState(c, i, s, k) => CurrentStatePathUnderCluster(c, i, s, k);
  }

  /** Injectivity: two well-formed addresses share a path only if they are
      the same address. */
  lemma RenderInjective(a: Address, b: Address)
    requires WellFormed(a) && WellFormed(b)
    ensures Render(a) == Render(b) <==> a == b
  {
    if Render(a) == Render(b) {
      var sa, sb := Segments(a), Segments(b);
      assert [""] + sa == [""] + sb;
      assert sa == ([""] + sa)[1..];
      assert sa == sb;
      match a
      case CategoryRoot(_, t) =>
        TokenInjective(t, b.category);
      case CategoryEntry(_, t, _) =>
        TokenInjective(t, b.category);
      case InstanceCategory(_, _, t) =>
        TokenInjective(t, b.category);
      case CurrentState(_, _, _, _) =>
    }
  }

  /** The extractor agrees with the structure: on the path of a well-formed
      address whose cluster is not named `INSTANCES`, it returns the instance
      the address belongs to, and nothing for a cluster-scoped address. An
      instance path must name a non-empty instance: `/<cluster>/INSTANCES/`
      yields no value (`EmptyInstanceNoInstance`). */
  lemma ExtractMatchesStructure(a: Address)
    requires WellFormed(a) && a.cluster != Token(Instances)
    requires a.CategoryEntry? && a.category == Instances ==> a.key != ""
    ensures InstanceNameFromPath(Render(a)) == InstanceOf(a)
  {
    match a
    case CategoryRoot(c, t) =>
      PropertyPathNoInstance(c, t);
    case CategoryEntry(c, t, k) =>
      if t == Instances {
        assert Render(a) == InstancePath(c, k);
        InstancePathRoundTrip(c, k);
      } else {
        CategoryEntryPathNoInstance(c, t, k);
      }
    case InstanceCategory(c, i, t) =>
      InstancePropertyPathRoundTrip(c, i, t);
    case CurrentState(c, i, s, k) =>
      CurrentStatePathRoundTrip(c, i, s, k);
  }

  /** The fixed offset read: when the cluster itself is named `INSTANCES`,
      the marker is always present. A category root yields no value; an
      entry yields its key when the key is non-empty, whatever the category;
      an instance-scoped path yields its instance. */
  lemma ExtractInstancesNamedCluster(a: Address)
    requires WellFormed(a) && a.cluster == Token(Instances)
    ensures a.CategoryRoot? ==> InstanceNameFromPath(Render(a)) == None
    ensures a.CategoryEntry? && a.key != "" ==> InstanceNameFromPath(Render(a)) == Some(a.key)
    ensures a.CategoryEntry? && a.key == "" ==> InstanceNameFromPath(Render(a)) == None
    ensures a.InstanceCategory? || a.CurrentState? ==> InstanceNameFromPath(Render(a)) == Some(a.instance)
  {
    match a
    case CategoryRoot(c, t) =>
      PropertyPathNoInstance(c, t);
    case CategoryEntry(c, t, k) =>
      CategoryEntryPathFixedOffset(t, k);
    case InstanceCategory(c, i, t) =>
      InstancePropertyPathRoundTrip(c, i, t);
    case CurrentState(c, i, s, k) =>
      CurrentStatePathRoundTrip(c, i, s, k);
  }
}
