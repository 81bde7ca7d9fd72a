/** The legacy configuration provider: it flattens the `add` elements of an
    App.config file's `connectionStrings` and `appSettings` sections into the
    colon-delimited key/value pairs of the configuration store. */
module ConfigurationHandler {
  import opened Wrappers

  /** One selected `add` element. `NoAttributes` is an element whose attribute
      collection is null; an `Element` holds the attributes it carries, by name.
      A name that is absent from the map is an attribute the indexer reports as null. */
  datatype XmlNode = NoAttributes | Element(attributes: map<string, string>)

  /** Why a load fails. `MissingAttribute` is the null dereference of `.Value` on
      an attribute the element does not carry; `DuplicateKey` is the store's
      `Add` refusing a key it already holds. */
  datatype LoadError = MissingAttribute(attribute: string) | DuplicateKey(key: string)

  /** The provider's key/value store. */
  type Data = map<string, string>

  /** The three fields every connection string expands into, in the order they are added. */
  const ConnectionFields: seq<string> := ["connectionString", "name", "providerName"]

  function ConnectionKey(name: string, field: string): string {
    "ConnectionStrings:" + name + ":" + field
  }

  function AppSettingKey(key: string): string {
    "AppSettings:" + key
  }

  /** Reads `attributes[name].Value`, which throws when the attribute is absent. */
  function Attribute(attributes: map<string, string>, name: string): Result<string, LoadError> {
    if name in attributes then Success(attributes[name]) else Failure(MissingAttribute(name))
  }

  /** `Data.Add(key, value)`: a new key is inserted, an existing one is an error. */
  function Add(data: Data, key: string, value: string): Result<Data, LoadError> {
    if key in data then Failure(DuplicateKey(key)) else Success(data[key := value])
  }

  /** The body of the `connectionStrings/add` loop for one element, with the
      attribute reads and `Add` calls in the order the arguments are evaluated. */
  function AddConnection(data: Data, node: XmlNode): Result<Data, LoadError> {
    match node
    case NoAttributes => Success(data)
    case Element(attributes) =>
      var name :- Attribute(attributes, "name");
      var connectionString :- Attribute(attributes, "connectionString");
      var withConnectionString :- Add(data, ConnectionKey(name, "connectionString"), connectionString);
      var withName :- Add(withConnectionString, ConnectionKey(name, "name"), name);
      var providerName :- Attribute(attributes, "providerName");
      Add(withName, ConnectionKey(name, "providerName"), providerName)
  }

  function AddConnections(data: Data, nodes: seq<XmlNode>): Result<Data, LoadError>
    decreases |nodes|
  {
    if |nodes| == 0 then Success(data)
    else
      var next :- AddConnection(data, nodes[0]);
      AddConnections(next, nodes[1..])
  }

  /** The body of the `appSettings/add` loop for one element. */
  function AddAppSetting(data: Data, node: XmlNode): Result<Data, LoadError> {
    match node
    case NoAttributes => Success(data)
    case Element(attributes) =>
      var key :- Attribute(attributes, "key");
      var value :- Attribute(attributes, "value");
      Add(data, AppSettingKey(key), value)
  }

  function AddAppSettings(data: Data, nodes: seq<XmlNode>): Result<Data, LoadError>
    decreases |nodes|
  {
    if |nodes| == 0 then Success(data)
    else
      var next :- AddAppSetting(data, nodes[0]);
      AddAppSettings(next, nodes[1..])
  }

  /** `LegacyConfigurationProvider.Load` on an already-parsed document: each
      argument is the node list a section's XPath query returned (`None` for a
      null list). Connection strings are loaded first, into an empty store. */
  function Load(connections: Option<seq<XmlNode>>, appSettings: Option<seq<XmlNode>>): Result<Data, LoadError> {
    var afterConnections :-
      if connections.Some? then AddConnections(map[], connections.value) else Success(map[]);
    if appSettings.None? then Success(afterConnections)
    else AddAppSettings(afterConnections, appSettings.value)
  }
}
