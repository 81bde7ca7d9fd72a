/** What `LegacyConfigurationProvider.Load` promises: when it succeeds, which
    keys the store holds and with which values; when it fails, why. */
module ConfigurationProperties {
  import opened Wrappers
  import opened ConfigurationHandler

  /** The element has no attribute collection (and is skipped) or carries `attribute`. */
  predicate Carries(node: XmlNode, attribute: string) {
    node.NoAttributes? || attribute in node.attributes
  }

  /** Every attribute the connection-string loop reads can be read. */
  predicate ConnectionComplete(node: XmlNode) {
    Carries(node, "name") && Carries(node, "connectionString") && Carries(node, "providerName")
  }

  /** Every attribute the app-settings loop reads can be read. */
  predicate AppSettingComplete(node: XmlNode) {
    Carries(node, "key") && Carries(node, "value")
  }

  predicate ConnectionsComplete(nodes: seq<XmlNode>) {
    forall i :: 0 <= i < |nodes| ==> ConnectionComplete(nodes[i])
  }

  predicate AppSettingsComplete(nodes: seq<XmlNode>) {
    forall i :: 0 <= i < |nodes| ==> AppSettingComplete(nodes[i])
  }

  /** The values of `attribute` on the elements that have an attribute collection, in document order. */
  function AttributeValues(nodes: seq<XmlNode>, attribute: string): seq<string>
    requires forall i :: 0 <= i < |nodes| ==> Carries(nodes[i], attribute)
    decreases |nodes|
  {
    if |nodes| == 0 then []
    else
      assert Carries(nodes[0], attribute);
      (if nodes[0].Element? then [nodes[0].attributes[attribute]] else [])
      + AttributeValues(nodes[1..], attribute)
  }

  predicate Distinct(s: seq<string>) {
    forall i, j :: 0 <= i < j < |s| ==> s[i] != s[j]
  }

  /** The three keys one connection string named `name` occupies. */
  function KeysOf(name: string): set<string> {
    {ConnectionKey(name, "connectionString"), ConnectionKey(name, "name"), ConnectionKey(name, "providerName")}
  }

  function ConnectionKeySet(names: seq<string>): set<string>
    decreases |names|
  {
    if |names| == 0 then {} else KeysOf(names[0]) + ConnectionKeySet(names[1..])
  }

  function AppSettingKeySet(keys: seq<string>): set<string>
    decreases |keys|
  {
    if |keys| == 0 then {} else {AppSettingKey(keys[0])} + AppSettingKeySet(keys[1..])
  }

  /** `data` holds the three entries a complete connection element contributes. */
  predicate HoldsConnection(data: Data, node: XmlNode) {
    node.NoAttributes? ||
    (ConnectionComplete(node) &&
     var a := node.attributes;
     var name := a["name"];
     && ConnectionKey(name, "connectionString") in data
     && data[ConnectionKey(name, "connectionString")] == a["connectionString"]
     && ConnectionKey(name, "name") in data
     && data[ConnectionKey(name, "name")] == name
     && ConnectionKey(name, "providerName") in data
     && data[ConnectionKey(name, "providerName")] == a["providerName"])
  }

  /** `data` holds the entry a complete app-settings element contributes. */
  predicate HoldsAppSetting(data: Data, node: XmlNode) {
    node.NoAttributes? ||
    (AppSettingComplete(node) &&
     AppSettingKey(node.attributes["key"]) in data &&
     data[AppSettingKey(node.attributes["key"])] == node.attributes["value"])
  }

  /** Loading `nodes` on top of `data` can succeed: every element can be read,
      names are pairwise distinct, and none of their keys is already present. */
  predicate ConnectionsLoadable(data: Data, nodes: seq<XmlNode>) {
    && ConnectionsComplete(nodes)
    && Distinct(AttributeValues(nodes, "name"))
    && data.Keys !! ConnectionKeySet(AttributeValues(nodes, "name"))
  }

  /** `result` is `data` extended by exactly the keys of `nodes`, one
      connection string taking three. */
  predicate ConnectionsLoaded(data: Data, nodes: seq<XmlNode>, result: Data) {
    && ConnectionsComplete(nodes)
    && result.Keys == data.Keys + ConnectionKeySet(AttributeValues(nodes, "name"))
    && (forall k :: k in data ==> result[k] == data[k])
    && |result| == |data| + 3 * |AttributeValues(nodes, "name")|
  }

  predicate AppSettingsLoadable(data: Data, nodes: seq<XmlNode>) {
    && AppSettingsComplete(nodes)
    && Distinct(AttributeValues(nodes, "key"))
    && data.Keys !! AppSettingKeySet(AttributeValues(nodes, "key"))
  }

  predicate AppSettingsLoaded(data: Data, nodes: seq<XmlNode>, result: Data) {
    && AppSettingsComplete(nodes)
    && result.Keys == data.Keys + AppSettingKeySet(AttributeValues(nodes, "key"))
    && (forall k :: k in data ==> result[k] == data[k])
    && |result| == |data| + |AttributeValues(nodes, "key")|
  }

  /** A missing section reads as an empty one. */
  function Section(nodes: Option<seq<XmlNode>>): seq<XmlNode> {
    if nodes.Some? then nodes.value else []
  }

  /** The document can be loaded: all attributes the loops read are present,
      connection names are pairwise distinct and so are app-setting keys. */
  predicate Loadable(connections: Option<seq<XmlNode>>, appSettings: Option<seq<XmlNode>>) {
    && ConnectionsComplete(Section(connections))
    && AppSettingsComplete(Section(appSettings))
    && Distinct(AttributeValues(Section(connections), "name"))
    && Distinct(AttributeValues(Section(appSettings), "key"))
  }

  // ---------------------------------------------------------------------------
  // Key construction is injective

  /** Two connection keys coincide only for the same name and field. */
  lemma ConnectionKeyInjective(n1: string, f1: string, n2: string, f2: string)
    requires f1 in ConnectionFields && f2 in ConnectionFields
    ensures ConnectionKey(n1, f1) == ConnectionKey(n2, f2) <==> n1 == n2 && f1 == f2
  {
    var w1, w2 := ConnectionKey(n1, f1), ConnectionKey(n2, f2);
    if w1 == w2 {
      var p := "ConnectionStrings:";
      assert w1 == p + n1 + ":" + f1 && w2 == p + n2 + ":" + f2;
      var L := |w1|;
      assert w1[L - 1] == f1[|f1| - 1] && w2[L - 1] == f2[|f2| - 1];
      assert L >= 5 + |p| && w1[L - 5] == (":" + f1)[|f1| + 1 - 5] && w2[L - 5] == (":" + f2)[|f2| + 1 - 5];
      assert f1 == f2;
      assert |n1| == |n2|;
      assert n1 == w1[|p|..|p| + |n1|];
      assert n2 == w2[|p|..|p| + |n2|];
    }
  }

  /** Two app-setting keys coincide only for the same setting key. */
  lemma AppSettingKeyInjective(k1: string, k2: string)
    ensures AppSettingKey(k1) == AppSettingKey(k2) <==> k1 == k2
  {
    if AppSettingKey(k1) == AppSettingKey(k2) {
      assert k1 == AppSettingKey(k1)[12..];
      assert k2 == AppSettingKey(k2)[12..];
    }
  }

  /** A connection key is never an app-setting key. */
  lemma SectionsNeverCollide(name: string, field: string, key: string)
    ensures ConnectionKey(name, field) != AppSettingKey(key)
  {
    assert ConnectionKey(name, field)[0] == 'C';
    assert AppSettingKey(key)[0] == 'A';
  }

  /** Every connection string occupies exactly three keys. */
  lemma KeysOfSize(name: string)
    ensures |KeysOf(name)| == 3
  {
    ConnectionKeyInjective(name, "connectionString", name, "name");
    ConnectionKeyInjective(name, "connectionString", name, "providerName");
    ConnectionKeyInjective(name, "name", name, "providerName");
  }

  /** The keys of a connection string are disjoint from those of a list of
      names exactly when its name is not in the list. */
  lemma {:induction false} KeysOfDisjoint(name: string, names: seq<string>)
    ensures KeysOf(name) !! ConnectionKeySet(names) <==> name !in names
    decreases |names|
  {
    if |names| > 0 {
      KeysOfDisjoint(name, names[1..]);
      var other := names[0];
      forall f1, f2 | f1 in ConnectionFields && f2 in ConnectionFields {
        ConnectionKeyInjective(name, f1, other, f2);
      }
      if name == other {
        assert ConnectionKey(name, "name") in KeysOf(name) * ConnectionKeySet(names);
      }
      assert names == [other] + names[1..];
    }
  }

  lemma {:induction false} AppSettingKeyDisjoint(key: string, keys: seq<string>)
    ensures AppSettingKey(key) !in AppSettingKeySet(keys) <==> key !in keys
    decreases |keys|
  {
    if |keys| > 0 {
      AppSettingKeyDisjoint(key, keys[1..]);
      AppSettingKeyInjective(key, keys[0]);
      assert keys == [keys[0]] + keys[1..];
    }
  }

  lemma {:induction false} ConnectionKeySetPrefix(names: seq<string>)
    ensures forall k :: k in ConnectionKeySet(names) ==> |k| > 0 && k[0] == 'C'
    decreases |names|
  {
    if |names| > 0 {
      ConnectionKeySetPrefix(names[1..]);
    }
  }

  lemma {:induction false} AppSettingKeySetPrefix(keys: seq<string>)
    ensures forall k :: k in AppSettingKeySet(keys) ==> |k| > 0 && k[0] == 'A'
    decreases |keys|
  {
    if |keys| > 0 {
      AppSettingKeySetPrefix(keys[1..]);
    }
  }

  lemma ConnectionKeySetCons(name: string, names: seq<string>)
    ensures ConnectionKeySet([name] + names) == KeysOf(name) + ConnectionKeySet(names)
  {
    assert ([name] + names)[1..] == names;
  }

  lemma AppSettingKeySetCons(key: string, keys: seq<string>)
    ensures AppSettingKeySet([key] + keys) == {AppSettingKey(key)} + AppSettingKeySet(keys)
  {
    assert ([key] + keys)[1..] == keys;
  }

  lemma DistinctCons(x: string, t: seq<string>)
    ensures Distinct([x] + t) <==> x !in t && Distinct(t)
  {
    var s := [x] + t;
    if x in t {
      var j :| 0 <= j < |t| && t[j] == x;
      assert s[0] == s[j + 1];
    }
    if Distinct(s) {
      forall i, j | 0 <= i < j < |t| ensures t[i] != t[j] {
        assert s[i + 1] == t[i] && s[j + 1] == t[j];
      }
    }
  }

  // ---------------------------------------------------------------------------
  // One element

  /** Three `Add` calls in a row, as one connection string makes them. */
  function AddThree(data: Data, k1: string, v1: string, k2: string, v2: string, k3: string, v3: string): Result<Data, LoadError> {
    var d1 :- Add(data, k1, v1);
    var d2 :- Add(d1, k2, v2);
    Add(d2, k3, v3)
  }

  lemma AddThreeSpec(data: Data, k1: string, v1: string, k2: string, v2: string, k3: string, v3: string)
    requires k1 != k2 && k1 != k3 && k2 != k3
    ensures AddThree(data, k1, v1, k2, v2, k3, v3).Success? <==> data.Keys !! {k1, k2, k3}
    ensures AddThree(data, k1, v1, k2, v2, k3, v3).Success? ==>
              var r := AddThree(data, k1, v1, k2, v2, k3, v3).value;
              && r.Keys == data.Keys + {k1, k2, k3}
              && (forall k :: k in data ==> r[k] == data[k])
              && r[k1] == v1 && r[k2] == v2 && r[k3] == v3
              && |r| == |data| + 3
  {
  }

  /** A connection element with attributes adds its three entries, or fails:
      on a missing attribute or on a key already present. */
  lemma AddConnectionSpec(data: Data, node: XmlNode)
    requires node.Element?
    ensures AddConnection(data, node).Success? <==>
              ConnectionComplete(node) && data.Keys !! KeysOf(node.attributes["name"])
    ensures AddConnection(data, node).Success? ==>
              var r := AddConnection(data, node).value;
              && r.Keys == data.Keys + KeysOf(node.attributes["name"])
              && (forall k :: k in data ==> r[k] == data[k])
              && HoldsConnection(r, node)
              && |r| == |data| + 3
  {
    var a := node.attributes;
    if ConnectionComplete(node) {
      var name := a["name"];
      var k1, k2, k3 := ConnectionKey(name, "connectionString"), ConnectionKey(name, "name"), ConnectionKey(name, "providerName");
      ConnectionKeyInjective(name, "connectionString", name, "name");
      ConnectionKeyInjective(name, "connectionString", name, "providerName");
      ConnectionKeyInjective(name, "name", name, "providerName");
      assert AddConnection(data, node) == AddThree(data, k1, a["connectionString"], k2, name, k3, a["providerName"]);
      AddThreeSpec(data, k1, a["connectionString"], k2, name, k3, a["providerName"]);
    } else {
      AddConnectionIncomplete(data, node);
    }
  }

  lemma AddConnectionIncomplete(data: Data, node: XmlNode)
    requires !ConnectionComplete(node)
    ensures AddConnection(data, node).Failure?
  {
    var a := node.attributes;
    if "name" in a && "connectionString" in a {
      var name := a["name"];
      var r1 := Add(data, ConnectionKey(name, "connectionString"), a["connectionString"]);
      if r1.Success? {
        var r2 := Add(r1.value, ConnectionKey(name, "name"), name);
      }
    }
  }

  /** An app-settings element with attributes adds its one entry, or fails. */
  lemma AddAppSettingSpec(data: Data, node: XmlNode)
    requires node.Element?
    ensures AddAppSetting(data, node).Success? <==>
              AppSettingComplete(node) && AppSettingKey(node.attributes["key"]) !in data
    ensures AddAppSetting(data, node).Success? ==>
              var r := AddAppSetting(data, node).value;
              && r.Keys == data.Keys + {AppSettingKey(node.attributes["key"])}
              && (forall k :: k in data ==> r[k] == data[k])
              && HoldsAppSetting(r, node)
              && |r| == |data| + 1
  {
  }

  // ---------------------------------------------------------------------------
  // A whole section

  /** Decomposing a section into its first element and the rest. */
  lemma SectionCons(nodes: seq<XmlNode>)
    requires |nodes| > 0
    ensures ConnectionsComplete(nodes) <==> ConnectionComplete(nodes[0]) && ConnectionsComplete(nodes[1..])
    ensures AppSettingsComplete(nodes) <==> AppSettingComplete(nodes[0]) && AppSettingsComplete(nodes[1..])
    ensures forall i :: 0 < i < |nodes| ==> nodes[i] == nodes[1..][i - 1]
  {
    assert forall i :: 0 < i < |nodes| ==> nodes[i] == nodes[1..][i - 1];
  }

  /** The attribute values of a section whose first element has attributes. */
  lemma ValuesCons(nodes: seq<XmlNode>, attribute: string)
    requires |nodes| > 0 && nodes[0].Element? && attribute in nodes[0].attributes
    requires forall i :: 0 <= i < |nodes[1..]| ==> Carries(nodes[1..][i], attribute)
    ensures forall i :: 0 <= i < |nodes| ==> Carries(nodes[i], attribute)
    ensures AttributeValues(nodes, attribute)
         == [nodes[0].attributes[attribute]] + AttributeValues(nodes[1..], attribute)
    ensures ([nodes[0].attributes[attribute]] + AttributeValues(nodes[1..], attribute))[1..]
         == AttributeValues(nodes[1..], attribute)
  {
    assert forall i :: 0 < i < |nodes| ==> nodes[i] == nodes[1..][i - 1];
  }

  /** The attribute values of a section whose first element has no attributes. */
  lemma ValuesSkip(nodes: seq<XmlNode>, attribute: string)
    requires |nodes| > 0 && nodes[0].NoAttributes?
    requires forall i :: 0 <= i < |nodes| ==> Carries(nodes[i], attribute)
    ensures AttributeValues(nodes, attribute) == AttributeValues(nodes[1..], attribute)
  {
  }

  /** Loading a section on top of `data` succeeds exactly when it is loadable,
      and then adds exactly the section's entries. */
  lemma {:induction false} AddConnectionsSpec(data: Data, nodes: seq<XmlNode>)
    ensures AddConnections(data, nodes).Success? <==> ConnectionsLoadable(data, nodes)
    ensures AddConnections(data, nodes).Success? ==>
              ConnectionsLoaded(data, nodes, AddConnections(data, nodes).value)
    decreases |nodes|
  {
    if |nodes| == 0 {
      return;
    }
    var head := AddConnection(data, nodes[0]);
    if head.Failure? {
      ConnectionsHeadFails(data, nodes);
    } else {
      AddConnectionsSpec(head.value, nodes[1..]);
      if nodes[0].Element? {
        ConnectionElementStep(data, nodes, head.value);
      } else {
        ConnectionSkipStep(data, nodes);
      }
    }
  }

  /** The inductive step for a first element with attributes. */
  lemma ConnectionElementStep(data: Data, nodes: seq<XmlNode>, next: Data)
    requires |nodes| > 0 && nodes[0].Element? && AddConnection(data, nodes[0]) == Success(next)
    requires AddConnections(next, nodes[1..]).Success? <==> ConnectionsLoadable(next, nodes[1..])
    requires AddConnections(next, nodes[1..]).Success? ==>
               ConnectionsLoaded(next, nodes[1..], AddConnections(next, nodes[1..]).value)
    ensures AddConnections(data, nodes).Success? <==> ConnectionsLoadable(data, nodes)
    ensures AddConnections(data, nodes).Success? ==>
              ConnectionsLoaded(data, nodes, AddConnections(data, nodes).value)
  {
    AddConnectionSpec(data, nodes[0]);
    ConnectionLoadableStep(data, nodes, next);
    if AddConnections(next, nodes[1..]).Success? {
      ConnectionLoadedStep(data, nodes, next, AddConnections(next, nodes[1..]).value);
    }
  }

  /** The inductive step for a first element without attributes. */
  lemma ConnectionSkipStep(data: Data, nodes: seq<XmlNode>)
    requires |nodes| > 0 && nodes[0].NoAttributes?
    requires AddConnections(data, nodes[1..]).Success? <==> ConnectionsLoadable(data, nodes[1..])
    requires AddConnections(data, nodes[1..]).Success? ==>
               ConnectionsLoaded(data, nodes[1..], AddConnections(data, nodes[1..]).value)
    ensures AddConnections(data, nodes).Success? <==> ConnectionsLoadable(data, nodes)
    ensures AddConnections(data, nodes).Success? ==>
              ConnectionsLoaded(data, nodes, AddConnections(data, nodes).value)
  {
    SectionCons(nodes);
    if ConnectionsComplete(nodes) {
      ValuesSkip(nodes, "name");
    }
  }

  lemma ConnectionsHeadFails(data: Data, nodes: seq<XmlNode>)
    requires |nodes| > 0 && AddConnection(data, nodes[0]).Failure?
    ensures AddConnections(data, nodes).Failure?
    ensures !ConnectionsLoadable(data, nodes)
  {
    AddConnectionSpec(data, nodes[0]);
    SectionCons(nodes);
    if ConnectionsComplete(nodes) {
      ValuesCons(nodes, "name");
    }
  }

  lemma ConnectionLoadableStep(data: Data, nodes: seq<XmlNode>, next: Data)
    requires |nodes| > 0 && nodes[0].Element? && ConnectionComplete(nodes[0])
    requires data.Keys !! KeysOf(nodes[0].attributes["name"])
    requires next.Keys == data.Keys + KeysOf(nodes[0].attributes["name"])
    ensures ConnectionsLoadable(data, nodes) <==> ConnectionsLoadable(next, nodes[1..])
  {
    SectionCons(nodes);
    if ConnectionsComplete(nodes[1..]) {
      var name := nodes[0].attributes["name"];
      var names := AttributeValues(nodes[1..], "name");
      ValuesCons(nodes, "name");
      ConnectionKeySetCons(name, names);
      DistinctCons(name, names);
      KeysOfDisjoint(name, names);
    }
  }

  /** Entries a store holds survive into any store that keeps its values. */
  lemma HoldsConnectionExtends(data: Data, larger: Data, node: XmlNode)
    requires HoldsConnection(data, node)
    requires data.Keys <= larger.Keys && forall k :: k in data ==> larger[k] == data[k]
    ensures HoldsConnection(larger, node)
  {
  }

  lemma ConnectionLoadedStep(data: Data, nodes: seq<XmlNode>, next: Data, result: Data)
    requires |nodes| > 0 && nodes[0].Element? && ConnectionComplete(nodes[0])
    requires next.Keys == data.Keys + KeysOf(nodes[0].attributes["name"])
    requires forall k :: k in data ==> next[k] == data[k]
    requires |next| == |data| + 3
    requires ConnectionsLoaded(next, nodes[1..], result)
    ensures ConnectionsLoaded(data, nodes, result)
  {
    var name := nodes[0].attributes["name"];
    SectionCons(nodes);
    ValuesCons(nodes, "name");
    ConnectionKeySetCons(name, AttributeValues(nodes[1..], "name"));
  }

  lemma {:induction false} AddAppSettingsSpec(data: Data, nodes: seq<XmlNode>)
    ensures AddAppSettings(data, nodes).Success? <==> AppSettingsLoadable(data, nodes)
    ensures AddAppSettings(data, nodes).Success? ==>
              AppSettingsLoaded(data, nodes, AddAppSettings(data, nodes).value)
    decreases |nodes|
  {
    if |nodes| == 0 {
      return;
    }
    var head := AddAppSetting(data, nodes[0]);
    if head.Failure? {
      AppSettingsHeadFails(data, nodes);
    } else {
      AddAppSettingsSpec(head.value, nodes[1..]);
      if nodes[0].Element? {
        AppSettingElementStep(data, nodes, head.value);
      } else {
        AppSettingSkipStep(data, nodes);
      }
    }
  }

  /** The inductive step for a first element with attributes. */
  lemma AppSettingElementStep(data: Data, nodes: seq<XmlNode>, next: Data)
    requires |nodes| > 0 && nodes[0].Element? && AddAppSetting(data, nodes[0]) == Success(next)
    requires AddAppSettings(next, nodes[1..]).Success? <==> AppSettingsLoadable(next, nodes[1..])
    requires AddAppSettings(next, nodes[1..]).Success? ==>
               AppSettingsLoaded(next, nodes[1..], AddAppSettings(next, nodes[1..]).value)
    ensures AddAppSettings(data, nodes).Success? <==> AppSettingsLoadable(data, nodes)
    ensures AddAppSettings(data, nodes).Success? ==>
              AppSettingsLoaded(data, nodes, AddAppSettings(data, nodes).value)
  {
    AddAppSettingSpec(data, nodes[0]);
    AppSettingLoadableStep(data, nodes, next);
    if AddAppSettings(next, nodes[1..]).Success? {
      AppSettingLoadedStep(data, nodes, next, AddAppSettings(next, nodes[1..]).value);
    }
  }

  /** The inductive step for a first element without attributes. */
  lemma AppSettingSkipStep(data: Data, nodes: seq<XmlNode>)
    requires |nodes| > 0 && nodes[0].NoAttributes?
    requires AddAppSettings(data, nodes[1..]).Success? <==> AppSettingsLoadable(data, nodes[1..])
    requires AddAppSettings(data, nodes[1..]).Success? ==>
               AppSettingsLoaded(data, nodes[1..], AddAppSettings(data, nodes[1..]).value)
    ensures AddAppSettings(data, nodes).Success? <==> AppSettingsLoadable(data, nodes)
    ensures AddAppSettings(data, nodes).Success? ==>
              AppSettingsLoaded(data, nodes, AddAppSettings(data, nodes).value)
  {
    SectionCons(nodes);
    if AppSettingsComplete(nodes) {
      ValuesSkip(nodes, "key");
    }
  }

  lemma AppSettingsHeadFails(data: Data, nodes: seq<XmlNode>)
    requires |nodes| > 0 && AddAppSetting(data, nodes[0]).Failure?
    ensures AddAppSettings(data, nodes).Failure?
    ensures !AppSettingsLoadable(data, nodes)
  {
    AddAppSettingSpec(data, nodes[0]);
    SectionCons(nodes);
    if AppSettingsComplete(nodes) {
      ValuesCons(nodes, "key");
    }
  }

  lemma AppSettingLoadableStep(data: Data, nodes: seq<XmlNode>, next: Data)
    requires |nodes| > 0 && nodes[0].Element? && AppSettingComplete(nodes[0])
    requires AppSettingKey(nodes[0].attributes["key"]) !in data
    requires next.Keys == data.Keys + {AppSettingKey(nodes[0].attributes["key"])}
    ensures AppSettingsLoadable(data, nodes) <==> AppSettingsLoadable(next, nodes[1..])
  {
    SectionCons(nodes);
    if AppSettingsComplete(nodes[1..]) {
      var key := nodes[0].attributes["key"];
      var keys := AttributeValues(nodes[1..], "key");
      ValuesCons(nodes, "key");
      AppSettingKeySetCons(key, keys);
      DistinctCons(key, keys);
      AppSettingKeyDisjoint(key, keys);
    }
  }

  lemma AppSettingLoadedStep(data: Data, nodes: seq<XmlNode>, next: Data, result: Data)
    requires |nodes| > 0 && nodes[0].Element? && AppSettingComplete(nodes[0])
    requires next.Keys == data.Keys + {AppSettingKey(nodes[0].attributes["key"])}
    requires forall k :: k in data ==> next[k] == data[k]
    requires |next| == |data| + 1
    requires AppSettingsLoaded(next, nodes[1..], result)
    ensures AppSettingsLoaded(data, nodes, result)
  {
    var key := nodes[0].attributes["key"];
    SectionCons(nodes);
    ValuesCons(nodes, "key");
    AppSettingKeySetCons(key, AttributeValues(nodes[1..], "key"));
  }

  /** After a successful load of a section, the store holds every entry of
      every element in it. */
  lemma {:induction false} AddConnectionsHolds(data: Data, nodes: seq<XmlNode>)
    ensures AddConnections(data, nodes).Success? ==>
              forall i :: 0 <= i < |nodes| ==> HoldsConnection(AddConnections(data, nodes).value, nodes[i])
    decreases |nodes|
  {
    if |nodes| > 0 && AddConnections(data, nodes).Success? {
      var next := AddConnection(data, nodes[0]).value;
      var result := AddConnections(next, nodes[1..]).value;
      AddConnectionsHolds(next, nodes[1..]);
      AddConnectionsSpec(next, nodes[1..]);
      if nodes[0].Element? {
        AddConnectionSpec(data, nodes[0]);
        HoldsConnectionExtends(next, result, nodes[0]);
      }
      SectionCons(nodes);
    }
  }

  lemma {:induction false} AddAppSettingsHolds(data: Data, nodes: seq<XmlNode>)
    ensures AddAppSettings(data, nodes).Success? ==>
              forall i :: 0 <= i < |nodes| ==> HoldsAppSetting(AddAppSettings(data, nodes).value, nodes[i])
    decreases |nodes|
  {
    if |nodes| > 0 && AddAppSettings(data, nodes).Success? {
      var next := AddAppSetting(data, nodes[0]).value;
      var result := AddAppSettings(next, nodes[1..]).value;
      AddAppSettingsHolds(next, nodes[1..]);
      AddAppSettingsSpec(next, nodes[1..]);
      if nodes[0].Element? {
        AddAppSettingSpec(data, nodes[0]);
        assert HoldsAppSetting(result, nodes[0]);
      }
      SectionCons(nodes);
    }
  }

  // ---------------------------------------------------------------------------
  // The whole load

  /** `Load` succeeds exactly when every element with attributes carries the
      attributes its loop reads and no connection name or setting key repeats;
      it then holds exactly three entries per connection string and one per app
      setting, each with the value the element gives it. */
  lemma LoadSpec(connections: Option<seq<XmlNode>>, appSettings: Option<seq<XmlNode>>)
    ensures Load(connections, appSettings).Success? <==> Loadable(connections, appSettings)
    ensures Load(connections, appSettings).Success? ==>
              var r := Load(connections, appSettings).value;
              var cs, settings := Section(connections), Section(appSettings);
              && r.Keys == ConnectionKeySet(AttributeValues(cs, "name")) + AppSettingKeySet(AttributeValues(settings, "key"))
              && (forall i :: 0 <= i < |cs| ==> HoldsConnection(r, cs[i]))
              && (forall i :: 0 <= i < |settings| ==> HoldsAppSetting(r, settings[i]))
              && |r| == 3 * |AttributeValues(cs, "name")| + |AttributeValues(settings, "key")|
  {
    LoadSucceeds(connections, appSettings);
    LoadContents(connections, appSettings);
  }

  /** `Load` as its two stages: connection strings into an empty store, then
      app settings on top unless the first stage failed. */
  lemma LoadStages(connections: Option<seq<XmlNode>>, appSettings: Option<seq<XmlNode>>)
    ensures var first := AddConnections(map[], Section(connections));
            Load(connections, appSettings)
              == if first.Failure? then Failure(first.error) else AddAppSettings(first.value, Section(appSettings))
  {
    assert AddConnections(map[], []) == Success(map[]);
    if AddConnections(map[], Section(connections)).Success? {
      var d := AddConnections(map[], Section(connections)).value;
      assert AddAppSettings(d, []) == Success(d);
    }
  }

  lemma LoadSucceeds(connections: Option<seq<XmlNode>>, appSettings: Option<seq<XmlNode>>)
    ensures Load(connections, appSettings).Success? <==> Loadable(connections, appSettings)
  {
    var cs, settings := Section(connections), Section(appSettings);
    var empty: Data := map[];
    LoadStages(connections, appSettings);
    AddConnectionsSpec(empty, cs);
    var first := AddConnections(empty, cs);
    if first.Success? {
      var d := first.value;
      AddAppSettingsSpec(d, settings);
      if AppSettingsComplete(settings) {
        var keys := AttributeValues(settings, "key");
        ConnectionKeySetPrefix(AttributeValues(cs, "name"));
        AppSettingKeySetPrefix(keys);
        assert d.Keys !! AppSettingKeySet(keys);
      }
    }
  }

  lemma LoadContents(connections: Option<seq<XmlNode>>, appSettings: Option<seq<XmlNode>>)
    ensures Load(connections, appSettings).Success? ==>
              var r := Load(connections, appSettings).value;
              var cs, settings := Section(connections), Section(appSettings);
              && ConnectionsComplete(cs) && AppSettingsComplete(settings)
              && r.Keys == ConnectionKeySet(AttributeValues(cs, "name")) + AppSettingKeySet(AttributeValues(settings, "key"))
              && (forall i :: 0 <= i < |cs| ==> HoldsConnection(r, cs[i]))
              && (forall i :: 0 <= i < |settings| ==> HoldsAppSetting(r, settings[i]))
              && |r| == 3 * |AttributeValues(cs, "name")| + |AttributeValues(settings, "key")|
  {
    var cs, settings := Section(connections), Section(appSettings);
    var empty: Data := map[];
    LoadStages(connections, appSettings);
    if Load(connections, appSettings).Success? {
      AddConnectionsSpec(empty, cs);
      AddConnectionsHolds(empty, cs);
      var d := AddConnections(empty, cs).value;
      AddAppSettingsSpec(d, settings);
      AddAppSettingsHolds(d, settings);
      forall i | 0 <= i < |cs| ensures HoldsConnection(Load(connections, appSettings).value, cs[i]) {
        HoldsConnectionExtends(d, Load(connections, appSettings).value, cs[i]);
      }
    }
  }

  /** A repeated connection name is an error, never an overwrite. */
  lemma RepeatedConnectionNameFails(connections: seq<XmlNode>, appSettings: Option<seq<XmlNode>>, i: nat, j: nat)
    requires i < j < |connections|
    requires connections[i].Element? && connections[j].Element?
    requires "name" in connections[i].attributes && "name" in connections[j].attributes
    requires connections[i].attributes["name"] == connections[j].attributes["name"]
    ensures Load(Some(connections), appSettings).Failure?
  {
    LoadSpec(Some(connections), appSettings);
    if ConnectionsComplete(connections) {
      AttributeValuesIndex(connections, "name", i, j);
    }
  }

  /** A repeated app-setting key is an error, never an overwrite. */
  lemma RepeatedAppSettingKeyFails(connections: Option<seq<XmlNode>>, appSettings: seq<XmlNode>, i: nat, j: nat)
    requires i < j < |appSettings|
    requires appSettings[i].Element? && appSettings[j].Element?
    requires "key" in appSettings[i].attributes && "key" in appSettings[j].attributes
    requires appSettings[i].attributes["key"] == appSettings[j].attributes["key"]
    ensures Load(connections, Some(appSettings)).Failure?
  {
    LoadSpec(connections, Some(appSettings));
    if AppSettingsComplete(appSettings) {
      AttributeValuesIndex(appSettings, "key", i, j);
    }
  }

  /** Two elements with attributes, at positions `i < j`, contribute values at
      two distinct positions of `AttributeValues`, in the same order. */
  lemma {:induction false} AttributeValuesIndex(nodes: seq<XmlNode>, attribute: string, i: nat, j: nat)
    requires forall k :: 0 <= k < |nodes| ==> Carries(nodes[k], attribute)
    requires i < j < |nodes| && nodes[i].Element? && nodes[j].Element?
    ensures exists a, b :: 0 <= a < b < |AttributeValues(nodes, attribute)|
              && AttributeValues(nodes, attribute)[a] == nodes[i].attributes[attribute]
              && AttributeValues(nodes, attribute)[b] == nodes[j].attributes[attribute]
    decreases |nodes|
  {
    var rest := nodes[1..];
    var vs := AttributeValues(nodes, attribute);
    var tail := AttributeValues(rest, attribute);
    if i == 0 {
      AttributeValueIndex(rest, attribute, j - 1);
      var b :| 0 <= b < |tail| && tail[b] == nodes[j].attributes[attribute];
      assert vs == [nodes[0].attributes[attribute]] + tail;
      assert vs[0] == nodes[i].attributes[attribute] && vs[b + 1] == tail[b];
    } else {
      AttributeValuesIndex(rest, attribute, i - 1, j - 1);
      var a, b :| 0 <= a < b < |tail| && tail[a] == rest[i - 1].attributes[attribute]
                                      && tail[b] == rest[j - 1].attributes[attribute];
      var offset := if nodes[0].Element? then 1 else 0;
      assert vs[a + offset] == tail[a] && vs[b + offset] == tail[b];
    }
  }

  lemma {:induction false} AttributeValueIndex(nodes: seq<XmlNode>, attribute: string, j: nat)
    requires forall k :: 0 <= k < |nodes| ==> Carries(nodes[k], attribute)
    requires j < |nodes| && nodes[j].Element?
    ensures exists b :: 0 <= b < |AttributeValues(nodes, attribute)|
              && AttributeValues(nodes, attribute)[b] == nodes[j].attributes[attribute]
    decreases |nodes|
  {
    var vs := AttributeValues(nodes, attribute);
    if j == 0 {
      assert vs[0] == nodes[0].attributes[attribute];
    } else {
      var rest := nodes[1..];
      var tail := AttributeValues(rest, attribute);
      AttributeValueIndex(rest, attribute, j - 1);
      var b :| 0 <= b < |tail| && tail[b] == rest[j - 1].attributes[attribute];
      var offset := if nodes[0].Element? then 1 else 0;
      assert vs[b + offset] == tail[b];
    }
  }

  /** An element that lacks an attribute its loop reads fails the load; it is not skipped. */
  lemma IncompleteElementFails(connections: Option<seq<XmlNode>>, appSettings: Option<seq<XmlNode>>, i: nat)
    requires (i < |Section(connections)| && !ConnectionComplete(Section(connections)[i]))
          || (i < |Section(appSettings)| && !AppSettingComplete(Section(appSettings)[i]))
    ensures Load(connections, appSettings).Failure?
  {
    LoadSpec(connections, appSettings);
  }

  // ---------------------------------------------------------------------------
  // Skipping and ordering

  lemma {:induction false} AddConnectionsConcat(data: Data, s: seq<XmlNode>, t: seq<XmlNode>)
    ensures AddConnections(data, s + t) ==
              match AddConnections(data, s)
              case Success(next) => AddConnections(next, t)
              case Failure(e) => Failure(e)
    decreases |s|
  {
    if |s| == 0 {
      assert s + t == t;
    } else {
      assert (s + t)[0] == s[0] && (s + t)[1..] == s[1..] + t;
      match AddConnection(data, s[0])
      case Success(next) => AddConnectionsConcat(next, s[1..], t);
      case Failure(_) =>
    }
  }

  lemma {:induction false} AddAppSettingsConcat(data: Data, s: seq<XmlNode>, t: seq<XmlNode>)
    ensures AddAppSettings(data, s + t) ==
              match AddAppSettings(data, s)
              case Success(next) => AddAppSettings(next, t)
              case Failure(e) => Failure(e)
    decreases |s|
  {
    if |s| == 0 {
      assert s + t == t;
    } else {
      assert (s + t)[0] == s[0] && (s + t)[1..] == s[1..] + t;
      match AddAppSetting(data, s[0])
      case Success(next) => AddAppSettingsConcat(next, s[1..], t);
      case Failure(_) =>
    }
  }

  /** An element whose attribute collection is null contributes nothing, and
      the elements after it are still processed. */
  lemma SkipNullAttributes(s: seq<XmlNode>, t: seq<XmlNode>, other: Option<seq<XmlNode>>)
    ensures Load(Some(s + [NoAttributes] + t), other) == Load(Some(s + t), other)
    ensures Load(other, Some(s + [NoAttributes] + t)) == Load(other, Some(s + t))
  {
    var empty: Data := map[];
    assert s + [NoAttributes] + t == s + ([NoAttributes] + t);
    AddConnectionsConcat(empty, s, [NoAttributes] + t);
    AddConnectionsConcat(empty, s, t);
    assert ([NoAttributes] + t)[1..] == t;
    forall d: Data ensures AddConnections(d, [NoAttributes] + t) == AddConnections(d, t) {
    }
    forall d: Data ensures AddAppSettings(d, [NoAttributes] + t) == AddAppSettings(d, t) {
    }
    var first := if other.Some? then AddConnections(empty, other.value) else Success(empty);
    if first.Success? {
      AddAppSettingsConcat(first.value, s, [NoAttributes] + t);
      AddAppSettingsConcat(first.value, s, t);
    }
  }

  /** A missing section contributes no entries: it loads like an empty one. */
  lemma MissingSectionIsEmpty(connections: Option<seq<XmlNode>>, appSettings: Option<seq<XmlNode>>)
    ensures Load(None, appSettings) == Load(Some([]), appSettings)
    ensures Load(connections, None) == Load(connections, Some([]))
  {
    var empty: Data := map[];
    assert AddConnections(empty, []) == Success(empty);
    forall d: Data ensures AddAppSettings(d, []) == Success(d) {
    }
  }

  /** Connection strings are loaded before app settings: an error among the
      connection strings is the error of the load, whatever the app settings hold. */
  lemma ConnectionErrorsComeFirst(connections: seq<XmlNode>, appSettings: Option<seq<XmlNode>>)
    requires AddConnections(map[], connections).Failure?
    ensures Load(Some(connections), appSettings) == Failure(AddConnections(map[], connections).error)
  {
  }

  // ---------------------------------------------------------------------------
  // Examples

  /** One connection string "Main" with connection string "X" and provider "Y". */
  lemma SingleConnectionExample()
    ensures Load(Some([Element(map["name" := "Main", "connectionString" := "X", "providerName" := "Y"])]), None)
         == Success(map["ConnectionStrings:Main:connectionString" := "X",
                        "ConnectionStrings:Main:name" := "Main",
                        "ConnectionStrings:Main:providerName" := "Y"])
  {
    var node := Element(map["name" := "Main", "connectionString" := "X", "providerName" := "Y"]);
    var empty: Data := map[];
    MainConnectionAdded(node);
    MainKeys();
    assert [node][1..] == [];
    assert AddConnections(empty, [node]) == AddConnection(empty, node);
  }

  lemma MainKeys()
    ensures ConnectionKey("Main", "connectionString") == "ConnectionStrings:Main:connectionString"
    ensures ConnectionKey("Main", "name") == "ConnectionStrings:Main:name"
    ensures ConnectionKey("Main", "providerName") == "ConnectionStrings:Main:providerName"
  {
  }

  lemma MainConnectionAdded(node: XmlNode)
    requires node == Element(map["name" := "Main", "connectionString" := "X", "providerName" := "Y"])
    ensures AddConnection(map[], node)
         == Success(map[ConnectionKey("Main", "connectionString") := "X",
                        ConnectionKey("Main", "name") := "Main",
                        ConnectionKey("Main", "providerName") := "Y"])
  {
    var empty: Data := map[];
    var k1, k2, k3 := ConnectionKey("Main", "connectionString"), ConnectionKey("Main", "name"), ConnectionKey("Main", "providerName");
    ConnectionKeyInjective("Main", "connectionString", "Main", "name");
    ConnectionKeyInjective("Main", "connectionString", "Main", "providerName");
    ConnectionKeyInjective("Main", "name", "Main", "providerName");
    assert AddConnection(empty, node) == AddThree(empty, k1, "X", k2, "Main", k3, "Y");
  }

  /** One app setting "Foo" with value "Bar". */
  lemma SingleAppSettingExample()
    ensures Load(None, Some([Element(map["key" := "Foo", "value" := "Bar"])]))
         == Success(map["AppSettings:Foo" := "Bar"])
  {
    var node := Element(map["key" := "Foo", "value" := "Bar"]);
    var empty: Data := map[];
    assert AppSettingKey("Foo") == "AppSettings:Foo";
    assert [node][1..] == [];
    assert AddAppSettings(empty, [node]) == AddAppSetting(empty, node);
  }
}
