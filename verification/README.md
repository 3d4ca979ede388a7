# Helix coordination-store path scheme, in Dafny

This project models `HelixUtil`, the naming scheme Apache Helix uses for a
cluster's tree of nodes in its coordination store (a ZooKeeper-like
hierarchy). The builders turn a cluster name, a property category
(`PropertyType`) and selectors (instance, resource, session, state-unit key)
into a slash-joined path such as `/myCluster/INSTANCES/node1/CURRENTSTATES/session42/db_0`.
The one partial inverse, `getInstanceNameFromPath`, reads an instance name
back out of a path.

Files and modules:

- `wrappers.dfy` (`Wrappers`): `Option`, which stands for the Java `null` return.
- `java_strings.dfy` (`JavaStrings`): the Java string operations the scheme relies on.
  - `Contains` is `String.contains`.
  - `SplitAll` splits at every `/` and keeps every piece. `JoinSlash` undoes it, and for a non-empty list of slash-free pieces splitting undoes `JoinSlash` (`SplitJoin`).
  - `Split` is `String.split("\\/")`. A string without `/` comes back whole. Otherwise the leading empty piece is kept and trailing empty pieces are dropped.
- `property_type.dfy` (`PropertyTypes`): the property categories as a closed datatype.
  - `Token` gives each category's path segment, which is the enum constant's name.
  - `ParseToken` is its inverse.
- `helix_util.dfy` (`HelixUtil`): every path builder of the class, and the extractor.
  - Each builder states how its path splits into segments: the segments of the path it extends, then the ones it appends.
  - It also holds the lemmas for the composition, injectivity, round-trip, no-value and fixed-offset properties.
- `addresses.dfy` (`Addresses`): every path shape the builders produce, as one variant type `Address`. Over it the scheme is proved injective and every path is shown to lie under its cluster's directory, and the extractor is characterised completely.

Selectors are not checked for `/` by the source, so the builder contracts
speak of `SplitAll` of each selector: a selector holding `/` adds segments.
The round-trip, no-value and fixed-offset lemmas assume single-segment
names (`SlashFree`), and the segment, injectivity and
extraction lemmas of `Addresses` assume well-formed addresses, whose names
are all single segments; callers must ensure this. Without it the extractor is misled, and two lemmas record how:
`HelixUtil.IdealStateResourceWithMarker` (a resource named `x/INSTANCES/y`
makes an ideal-state path yield `x`) and `HelixUtil.SplitClusterReadsMarker`
(the instance path of a cluster named `x/y` yields the text `INSTANCES`).

The extractor tests for the text `/INSTANCES/` and then reads piece 3 of the
split, wherever the marker was found. `JavaStrings.DelimitedSegment` shows
that the text test is the same as asking for an `INSTANCES` piece strictly
inside the path. `HelixUtil.InstanceNameFromPathIff` states exactly when a
value comes back. `Addresses.ExtractMatchesStructure` shows that, for well-formed
addresses in clusters not named `INSTANCES`, the fixed offset returns exactly
the instance the address belongs to, provided an instance path names a
non-empty instance. `Addresses.ExtractInstancesNamedCluster` pins down what
happens for a well-formed address in a cluster literally named `INSTANCES`:
a category root yields no value, an entry yields its key when the key is
non-empty, and an instance-scoped path yields its instance.

Two facts about the code shape the model:

- The builders validate nothing: an empty cluster or instance name gives an empty segment, so every builder is total.
- The extractor tests for the substring `/INSTANCES/`, not for an `INSTANCES` piece; `DelimitedSegment` proves the two agree.

## Model

| member | source | states |
|---|---|---|
| `PropertyTypes.Token` | helix-core/src/main/java/org/apache/helix/util/HelixUtil.java:33 | a category's segment is non-empty and contains no `/` |
| `PropertyTypes.ParseToken` | helix-core/src/main/java/org/apache/helix/util/HelixUtil.java:33 | a segment read back as a category renders to that same segment |
| `PropertyTypes.TokenRoundTrip` | helix-core/src/main/java/org/apache/helix/util/HelixUtil.java:33 | every category's segment reads back as that category |
| `PropertyTypes.TokenInjective` | helix-core/src/main/java/org/apache/helix/util/HelixUtil.java:33 | two categories have the same segment exactly when they are the same category |
| `JavaStrings.Contains` | helix-core/src/main/java/org/apache/helix/util/HelixUtil.java:164 | `String.contains`, as a recursive scan for a prefix match; `ContainsIffOccurs` characterises it |
| `JavaStrings.ContainsIffOccurs` | helix-core/src/main/java/org/apache/helix/util/HelixUtil.java:164 | the substring test holds exactly when the text occurs at some position |
| `JavaStrings.ContainsInfix` | helix-core/src/main/java/org/apache/helix/util/HelixUtil.java:164 | text placed between any two strings is found by the substring test |
| `JavaStrings.SplitAll` | helix-core/src/main/java/org/apache/helix/util/HelixUtil.java:166 | splitting at every `/` gives at least one piece, no piece holds `/`, and joining the pieces with `/` gives back the input |
| `JavaStrings.SplitSlashFree` | helix-core/src/main/java/org/apache/helix/util/HelixUtil.java:166 | a string is one segment exactly when it holds no `/` |
| `JavaStrings.SplitJoin` | helix-core/src/main/java/org/apache/helix/util/HelixUtil.java:166 | for a non-empty list of pieces without `/`, splitting the joined string gives back exactly that list |
| `JavaStrings.SplitThree` | helix-core/src/main/java/org/apache/helix/util/HelixUtil.java:166 | three single segments joined by `/` split back into exactly those three |
| `JavaStrings.SplitConcat` | helix-core/src/main/java/org/apache/helix/util/HelixUtil.java:166 | the pieces of `p + "/" + x` are the pieces of `p` followed by the pieces of `x` |
| `JavaStrings.DelimitedSegment` | helix-core/src/main/java/org/apache/helix/util/HelixUtil.java:164-166 | for a single segment `x`, `"/" + x + "/"` occurs exactly when `x` is a piece strictly between the first and the last piece |
| `JavaStrings.DropTrailingEmpty` | helix-core/src/main/java/org/apache/helix/util/HelixUtil.java:166 | the result is a prefix of the input, everything dropped is empty, and the result does not end with an empty piece |
| `JavaStrings.Split` | helix-core/src/main/java/org/apache/helix/util/HelixUtil.java:166 | a string with no `/` comes back whole; otherwise the result is the pieces with only trailing empty ones removed |
| `HelixUtil.PropertyPath` | helix-core/src/main/java/org/apache/helix/util/HelixUtil.java:31-34 | the path starts with `"/" + cluster + "/"`, and it splits into an empty piece, the cluster's pieces and the token |
| `HelixUtil.InstancePropertyPath` | helix-core/src/main/java/org/apache/helix/util/HelixUtil.java:36-41 | the path is the instance path extended by `"/" + token`, and it splits into the instance path's pieces plus the token |
| `HelixUtil.InstancePath` | helix-core/src/main/java/org/apache/helix/util/HelixUtil.java:43-46 | the path extends the member-instances root by one separator, and it splits into that root's pieces plus the instance's pieces |
| `HelixUtil.CategoryEntryPath` | helix-core/src/main/java/org/apache/helix/util/HelixUtil.java:48-51 | a category root with one selector extends the root by one separator, and it splits into the root's pieces plus the selector's pieces |
| `HelixUtil.IdealStatePath` | helix-core/src/main/java/org/apache/helix/util/HelixUtil.java:48-51 | the path extends the ideal-states root, and it splits into that root's pieces plus the resource's pieces |
| `HelixUtil.IdealStatesPath` | helix-core/src/main/java/org/apache/helix/util/HelixUtil.java:53-56 | the path splits into an empty piece, the cluster's pieces and `IDEALSTATES` |
| `HelixUtil.LiveInstancesPath` | helix-core/src/main/java/org/apache/helix/util/HelixUtil.java:58-61 | the path splits into an empty piece, the cluster's pieces and `LIVEINSTANCES` |
| `HelixUtil.MessagePath` | helix-core/src/main/java/org/apache/helix/util/HelixUtil.java:73-76 | the instance path is a strict prefix of it, and it splits into the instance path's pieces plus `MESSAGES` |
| `HelixUtil.CurrentStateBasePath` | helix-core/src/main/java/org/apache/helix/util/HelixUtil.java:78-81 | the instance path is a strict prefix of it, and it splits into the instance path's pieces plus `CURRENTSTATES` |
| `HelixUtil.CurrentStatePath` | helix-core/src/main/java/org/apache/helix/util/HelixUtil.java:98-103 | the path is the current-state base path plus `"/" + session + "/" + key`, and it splits into the base's pieces, then the session's, then the key's |
| `HelixUtil.ExternalViewsPath` | helix-core/src/main/java/org/apache/helix/util/HelixUtil.java:105-108 | the path splits into an empty piece, the cluster's pieces and `EXTERNALVIEW` |
| `HelixUtil.StateModelDefinitionPath` | helix-core/src/main/java/org/apache/helix/util/HelixUtil.java:110-113 | the path splits into an empty piece, the cluster's pieces and `STATEMODELDEFS` |
| `HelixUtil.ExternalViewPath` | helix-core/src/main/java/org/apache/helix/util/HelixUtil.java:115-118 | the path extends the external-view root, and it splits into that root's pieces plus the resource's pieces |
| `HelixUtil.LiveInstancePath` | helix-core/src/main/java/org/apache/helix/util/HelixUtil.java:120-123 | the path extends the flat live-instances root, and it splits into that root's pieces plus the instance's pieces |
| `HelixUtil.MemberInstancesPath` | helix-core/src/main/java/org/apache/helix/util/HelixUtil.java:125-128 | the path splits into an empty piece, the cluster's pieces and `INSTANCES` |
| `HelixUtil.ErrorsPath` | helix-core/src/main/java/org/apache/helix/util/HelixUtil.java:130-133 | the instance path is a strict prefix of it, and it splits into the instance path's pieces plus `ERRORS` |
| `HelixUtil.StatusUpdatesPath` | helix-core/src/main/java/org/apache/helix/util/HelixUtil.java:135-138 | the instance path is a strict prefix of it, and it splits into the instance path's pieces plus `STATUSUPDATES` |
| `HelixUtil.ControllerPath` | helix-core/src/main/java/org/apache/helix/util/HelixUtil.java:176-179 | the path splits into an empty piece, the cluster's pieces and `CONTROLLER` |
| `HelixUtil.InstancesMarker` | helix-core/src/main/java/org/apache/helix/util/HelixUtil.java:164 | the text `"/" + PropertyType.INSTANCES + "/"` the extractor tests for; `DelimitedSegment` shows it is found exactly where `INSTANCES` is an inner piece |
| `HelixUtil.InstanceNameFromPath` | helix-core/src/main/java/org/apache/helix/util/HelixUtil.java:160-173 | without the text `/INSTANCES/` there is no value; any value is raw split piece 3 and a single segment |
| `HelixUtil.RootSegments` | helix-core/src/main/java/org/apache/helix/util/HelixUtil.java:31-34 | for a single-segment cluster, a category root splits into exactly `["", cluster, token]` |
| `HelixUtil.InstanceSegments` | helix-core/src/main/java/org/apache/helix/util/HelixUtil.java:43-46 | for single-segment names, the instance path splits into exactly `["", cluster, "INSTANCES", instance]` |
| `HelixUtil.CategoryEntryPathSegments` | helix-core/src/main/java/org/apache/helix/util/HelixUtil.java:48-51 | for single-segment names, a root-plus-selector path splits into exactly `["", cluster, token, key]` |
| `HelixUtil.CurrentStateBaseSegments` | helix-core/src/main/java/org/apache/helix/util/HelixUtil.java:78-81 | for single-segment names, the current-state directory splits into exactly `["", cluster, "INSTANCES", instance, "CURRENTSTATES"]` |
| `HelixUtil.CurrentStatePathSegments` | helix-core/src/main/java/org/apache/helix/util/HelixUtil.java:98-103 | for single-segment names, a current-state path splits into exactly the five base pieces, the session and the key |
| `HelixUtil.InstancesClusterEntry` | helix-core/src/main/java/org/apache/helix/util/HelixUtil.java:164-166 | under a cluster named `INSTANCES`, every root-plus-selector path with a single-segment key contains `/INSTANCES/` and splits into four pieces |
| `HelixUtil.CategoryEntryPathUnderCluster` | helix-core/src/main/java/org/apache/helix/util/HelixUtil.java:48-51 | a root-plus-selector path starts with `"/" + cluster + "/"` |
| `HelixUtil.InstancePathUnderCluster` | helix-core/src/main/java/org/apache/helix/util/HelixUtil.java:43-46 | an instance path starts with `"/" + cluster + "/"` |
| `HelixUtil.InstancePropertyPathUnderCluster` | helix-core/src/main/java/org/apache/helix/util/HelixUtil.java:36-41 | a per-instance category path starts with `"/" + cluster + "/"` |
| `HelixUtil.CurrentStatePathUnderCluster` | helix-core/src/main/java/org/apache/helix/util/HelixUtil.java:98-103 | a current-state path starts with `"/" + cluster + "/"`, whatever the session and key hold |
| `HelixUtil.NoMarkerNoInstance` | helix-core/src/main/java/org/apache/helix/util/HelixUtil.java:164-172 | when no inner piece is `INSTANCES`, there is no value |
| `HelixUtil.ReadsPieceThree` | helix-core/src/main/java/org/apache/helix/util/HelixUtil.java:164-170 | when the marker is present and some piece from index 3 on is non-empty, the value is piece 3 |
| `HelixUtil.ShortPathNoInstance` | helix-core/src/main/java/org/apache/helix/util/HelixUtil.java:164-172 | when every piece from index 3 on is empty, so that at most three survive trailing-empty removal, there is no value, marker or not |
| `HelixUtil.InstanceNameFromPathIff` | helix-core/src/main/java/org/apache/helix/util/HelixUtil.java:160-173 | a value comes back exactly when `/INSTANCES/` occurs in the path and some piece from index 3 on is non-empty |
| `HelixUtil.SlashInstanceNoInstance` | helix-core/src/main/java/org/apache/helix/util/HelixUtil.java:43-46 | for a single-segment cluster, the instance path of the name `/` has only empty pieces after `INSTANCES`, and yields no value |
| `HelixUtil.PropertyPathInjective` | helix-core/src/main/java/org/apache/helix/util/HelixUtil.java:31-34 | two category roots are equal exactly when cluster and category are equal, for any cluster names, separators included |
| `HelixUtil.RootLastPiece` | helix-core/src/main/java/org/apache/helix/util/HelixUtil.java:31-34 | the last piece of a category root is its token |
| `HelixUtil.RootCluster` | helix-core/src/main/java/org/apache/helix/util/HelixUtil.java:31-34 | the cluster name sits right after the root's first `/`, and the root is two characters longer than cluster and token together |
| `HelixUtil.InstancePathRoundTrip` | helix-core/src/main/java/org/apache/helix/util/HelixUtil.java:160-173 | the extractor returns a non-empty single-segment instance name from its instance path |
| `HelixUtil.InstancePropertyPathRoundTrip` | helix-core/src/main/java/org/apache/helix/util/HelixUtil.java:160-173 | the extractor returns the instance name from any category path of that instance |
| `HelixUtil.MessagePathRoundTrip` | helix-core/src/main/java/org/apache/helix/util/HelixUtil.java:160-173 | the extractor returns the instance name from the instance's message path |
| `HelixUtil.CurrentStatePathPieces` | helix-core/src/main/java/org/apache/helix/util/HelixUtil.java:98-103 | for single-segment cluster and instance, a current-state path has at least seven pieces, with `INSTANCES`, the instance and `CURRENTSTATES` at indices 2 to 4, whatever the session and key |
| `HelixUtil.CurrentStatePathRoundTrip` | helix-core/src/main/java/org/apache/helix/util/HelixUtil.java:160-173 | the extractor returns the instance name from a current-state path, whatever the session and key hold |
| `HelixUtil.PropertyPathNoInstance` | helix-core/src/main/java/org/apache/helix/util/HelixUtil.java:164-172 | no category root of a single-segment cluster yields a value |
| `HelixUtil.CategoryEntryPathNoInstance` | helix-core/src/main/java/org/apache/helix/util/HelixUtil.java:164-172 | for single-segment names, a root-plus-selector path of any category but INSTANCES, in a cluster not named `INSTANCES`, yields no value |
| `HelixUtil.CategoryEntryPathFixedOffset` | helix-core/src/main/java/org/apache/helix/util/HelixUtil.java:164-169 | in a cluster named `INSTANCES`, a root-plus-selector path of any category with a single-segment selector yields that selector if non-empty, and no value otherwise |
| `HelixUtil.InstancesClusterEntryRead` | helix-core/src/main/java/org/apache/helix/util/HelixUtil.java:164-169 | in a cluster named `INSTANCES`, a root-plus-selector path with a non-empty single-segment selector yields that selector |
| `HelixUtil.InstancesClusterEntryEmpty` | helix-core/src/main/java/org/apache/helix/util/HelixUtil.java:166-172 | in a cluster named `INSTANCES`, a root-plus-selector path with the empty selector yields no value |
| `HelixUtil.IdealStatePathNoInstance` | helix-core/src/main/java/org/apache/helix/util/HelixUtil.java:48-51 | for single-segment names, an ideal-state path of a cluster not named `INSTANCES` yields no value |
| `HelixUtil.EmptyInstanceNoInstance` | helix-core/src/main/java/org/apache/helix/util/HelixUtil.java:166-172 | for a single-segment cluster, `/<cluster>/INSTANCES/` is the instance path of the empty name and yields no value |
| `HelixUtil.LiveInstancePathFixedOffset` | helix-core/src/main/java/org/apache/helix/util/HelixUtil.java:120-123 | for a non-empty single-segment instance name, the live-instance path of a cluster named `INSTANCES` yields that name, by the fixed offset |
| `HelixUtil.LiveInstancePathNoInstance` | helix-core/src/main/java/org/apache/helix/util/HelixUtil.java:120-123 | for single-segment names, the live-instance path of any cluster not named `INSTANCES` yields no value |
| `HelixUtil.IdealStateResourceWithMarker` | helix-core/src/main/java/org/apache/helix/util/HelixUtil.java:48-51 | for single-segment `cluster`, `x` and `y`, the ideal-state path of the resource `x/INSTANCES/y` yields `x`, whatever the cluster is named |
| `HelixUtil.IdealStateResourceSegments` | helix-core/src/main/java/org/apache/helix/util/HelixUtil.java:48-51 | for single-segment `cluster`, `x` and `y`, the ideal-state path of the resource `x/INSTANCES/y` splits into exactly `["", cluster, "IDEALSTATES", x, "INSTANCES", y]` |
| `HelixUtil.SplitClusterReadsMarker` | helix-core/src/main/java/org/apache/helix/util/HelixUtil.java:43-46 | for single-segment `x`, `y` and instance, the instance path of the cluster `x/y` yields the text `INSTANCES` |
| `HelixUtil.LiveInstanceFlatNotNested` | helix-core/src/main/java/org/apache/helix/util/HelixUtil.java:120-123 | the flat liveness node differs from the instance's nested LIVEINSTANCES child for every cluster and instance |
| `HelixUtil.CurrentStatePathExample` | helix-core/src/main/java/org/apache/helix/util/HelixUtil.java:98-103 | `("myCluster","node1","session42","db_0")` gives `/myCluster/INSTANCES/node1/CURRENTSTATES/session42/db_0` |
| `HelixUtil.MessagePathExample` | helix-core/src/main/java/org/apache/helix/util/HelixUtil.java:160-173 | `/myCluster/INSTANCES/node1/MESSAGES` yields `node1` |
| `HelixUtil.IdealStatePathExample` | helix-core/src/main/java/org/apache/helix/util/HelixUtil.java:160-173 | `/clusterX/IDEALSTATES/resourceY` yields no value |
| `Addresses.Render` | helix-core/src/main/java/org/apache/helix/util/HelixUtil.java:31-138 | a well-formed address's path splits into the empty piece followed by exactly the address's segments |
| `Addresses.BuildersRender` | helix-core/src/main/java/org/apache/helix/util/HelixUtil.java:43-179 | each named builder is the path of one address |
| `Addresses.RenderStartsWithCluster` | helix-core/src/main/java/org/apache/helix/util/HelixUtil.java:31-138 | every path of the scheme starts with `"/" + cluster + "/"`, whatever the selectors hold |
| `Addresses.RenderInjective` | helix-core/src/main/java/org/apache/helix/util/HelixUtil.java:31-138 | two well-formed addresses have the same path exactly when they are the same address |
| `Addresses.ExtractMatchesStructure` | helix-core/src/main/java/org/apache/helix/util/HelixUtil.java:160-173 | for a well-formed address outside a cluster named `INSTANCES`, whose instance path (if it is one) names a non-empty instance, the extractor returns exactly the instance the address belongs to, and no value for cluster-scoped addresses |
| `Addresses.ExtractInstancesNamedCluster` | helix-core/src/main/java/org/apache/helix/util/HelixUtil.java:160-173 | for a well-formed address in a cluster named `INSTANCES`, roots yield no value, an entry yields its key when the key is non-empty and no value otherwise, and instance-scoped paths yield the instance |

## Left out

- `getHealthPath`, `getPersistentStatsPath`, `getAlertsPath`, `getAlertStatusPath` and `getControllerPropertyPath` (HelixUtil.java lines 140-158 and 181-184) are not modelled. They delegate to `PropertyPathConfig.getPath`, whose path templates are not part of this model.
- The commented-out config-path helpers (lines 63-71) are not code.
- The `PropertyType` enum itself is not part of this model. Its constants are taken to be the fourteen categories the scheme names, and each token is the constant's name, which is what `toString()` returns for a plain Java enum. Constants the scheme never names are left out.
- `null` arguments are not modelled. Java would render them as the text `null`, and the model takes strings as given.
- `split` is modelled only for the literal single-character separator `/`, not general regular expressions.
- The private constructor (lines 27-29) is not modelled: the class holds only static functions.
