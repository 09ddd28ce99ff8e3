/** `MemSQLSinkConfig`: the settings the connector declares, their defaults
    and ranges, and the values the constructor derives from the supplied
    properties. Kafka's own parsing of text into typed values is not part of
    this model: properties arrive already typed. */
module SinkConfig {
  import opened Common

  /** Kafka's `Password`: a wrapper whose `value()` is the secret text. */
  datatype Password = Password(value: string)

  /** A property value of the type its setting declares. */
  datatype Value = Str(text: string) | Number(number: int) | Items(items: seq<string>) | Secret(secret: Password)

  datatype Default = NoDefault | NullDefault | IntDefault(n: int)

  /** One `define(...)` of `CONFIG_DEF`: a name, a default and, for the retry
      settings, the `atLeast(0)` validator. */
  datatype Setting = Setting(name: string, default: Default, atLeast: Option<int>)

  const DdlEndpoint := Setting("connection.ddlEndpoint", NoDefault, None)
  const DmlEndpoints := Setting("connection.dmlEndpoints", NullDefault, None)
  const ConnectionDatabase := Setting("connection.database", NoDefault, None)
  const ConnectionUser := Setting("connection.user", NullDefault, None)
  const ConnectionPassword := Setting("connection.password", NullDefault, None)
  const SqlParameters := Setting("params.<value>", NullDefault, None)
  const MaxRetries := Setting("max.retries", IntDefault(10), Some(0))
  const RetryBackoffMs := Setting("retry.backoff.ms", IntDefault(3000), Some(0))

  const ConfigDef: seq<Setting> :=
    [DdlEndpoint, DmlEndpoints, ConnectionDatabase, ConnectionUser, ConnectionPassword,
     SqlParameters, MaxRetries, RetryBackoffMs]

  datatype ConfigError = MissingRequired(name: string) | BelowMinimum(name: string, value: int) | WrongType(name: string)

  /** The value a setting takes: the supplied one, checked against the
      setting's lower bound, or else its default; a setting without a default
      must be supplied. None stands for Java's null. */
  function Resolve(props: map<string, Value>, s: Setting): (r: Result<Option<Value>, ConfigError>)
    ensures s.name !in props && s.default.NoDefault? ==> r == Failure(MissingRequired(s.name))
    ensures s.name !in props && s.default.NullDefault? ==> r == Success(None)
    ensures s.name !in props && s.default.IntDefault? ==> r == Success(Some(Number(s.default.n)))
    ensures s.name in props ==>
              r == (if s.atLeast.Some? && props[s.name].Number? && props[s.name].number < s.atLeast.value
                    then Failure(BelowMinimum(s.name, props[s.name].number))
                    else Success(Some(props[s.name])))
  {
    if s.name in props then
      var v := props[s.name];
      if s.atLeast.Some? && v.Number? && v.number < s.atLeast.value then Failure(BelowMinimum(s.name, v.number))
      else Success(Some(v))
    else
      match s.default
      case NoDefault => Failure(MissingRequired(s.name))
      case NullDefault => Success(None)
      case IntDefault(n) => Success(Some(Number(n)))
  }

  /** What Kafka's `ConfigDef` checks as `CONFIG_DEF` is built: no name is
      defined twice, and every default satisfies its own validator. */
  lemma DefaultsWithinRange()
    ensures forall i, j :: 0 <= i < j < |ConfigDef| ==> ConfigDef[i].name != ConfigDef[j].name
    ensures forall k :: 0 <= k < |ConfigDef| && ConfigDef[k].default.IntDefault? && ConfigDef[k].atLeast.Some? ==>
              ConfigDef[k].default.n >= ConfigDef[k].atLeast.value
  {
  }

  /** `getString`: the supplied text, the default, or a failure. */
  function GetString(props: map<string, Value>, s: Setting): (r: Result<Option<string>, ConfigError>)
    requires !s.default.IntDefault?
    ensures s.name in props ==> (r.Success? <==> props[s.name].Str?)
    ensures s.name in props && r.Success? ==> r.value == Some(props[s.name].text)
    ensures s.name !in props && s.default.NoDefault? ==> r == Failure(MissingRequired(s.name))
    ensures s.name !in props && s.default.NullDefault? ==> r == Success(None)
  {
    match Resolve(props, s)
    case Failure(e) => Failure(e)
    case Success(None) => Success(None)
    case Success(Some(v)) => if v.Str? then Success(Some(v.text)) else Failure(WrongType(s.name))
  }

  /** `getList`: the supplied items, the default, or a failure. */
  function GetList(props: map<string, Value>, s: Setting): (r: Result<Option<seq<string>>, ConfigError>)
    requires !s.default.IntDefault?
    ensures s.name in props ==> (r.Success? <==> props[s.name].Items?)
    ensures s.name in props && r.Success? ==> r.value == Some(props[s.name].items)
    ensures s.name !in props && s.default.NoDefault? ==> r == Failure(MissingRequired(s.name))
    ensures s.name !in props && s.default.NullDefault? ==> r == Success(None)
  {
    match Resolve(props, s)
    case Failure(e) => Failure(e)
    case Success(None) => Success(None)
    case Success(Some(v)) => if v.Items? then Success(Some(v.items)) else Failure(WrongType(s.name))
  }

  /** `getPassword`: the supplied password, the default, or a failure. */
  function GetPassword(props: map<string, Value>, s: Setting): (r: Result<Option<Password>, ConfigError>)
    requires !s.default.IntDefault?
    ensures s.name in props ==> (r.Success? <==> props[s.name].Secret?)
    ensures s.name in props && r.Success? ==> r.value == Some(props[s.name].secret)
    ensures s.name !in props && s.default.NoDefault? ==> r == Failure(MissingRequired(s.name))
    ensures s.name !in props && s.default.NullDefault? ==> r == Success(None)
  {
    match Resolve(props, s)
    case Failure(e) => Failure(e)
    case Success(None) => Success(None)
    case Success(Some(v)) => if v.Secret? then Success(Some(v.secret)) else Failure(WrongType(s.name))
  }

  /** `getInt`: the supplied number if it passes the validator, else the default. */
  function GetInt(props: map<string, Value>, s: Setting): (r: Result<int, ConfigError>)
    requires s.default.IntDefault?
    requires s.atLeast.Some? ==> s.default.n >= s.atLeast.value
    ensures r.Success? && s.atLeast.Some? ==> r.value >= s.atLeast.value
    ensures s.name !in props ==> r == Success(s.default.n)
    ensures s.name in props ==>
              (r.Success? <==> props[s.name].Number? && (s.atLeast.Some? ==> props[s.name].number >= s.atLeast.value))
    ensures s.name in props && r.Success? ==> r.value == props[s.name].number
  {
    match Resolve(props, s)
    case Failure(e) => Failure(e)
    case Success(None) => Success(s.default.n)
    case Success(Some(v)) => if v.Number? then Success(v.number) else Failure(WrongType(s.name))
  }

  /** `getPasswordValue`: a missing password stays null, otherwise its text. */
  function PasswordValue(p: Option<Password>): (r: Option<string>)
    ensures r.None? <==> p.None?
    ensures p.Some? ==> r == Some(p.value.value)
  {
    match p
    case None => None
    case Some(pw) => Some(pw.value)
  }

  const ParamsPrefix := "params."

  predicate IsParamKey(key: string) {
    ParamsPrefix <= key
  }

  function StripPrefix(key: string): string
    requires IsParamKey(key)
  {
    key[|ParamsPrefix|..]
  }

  lemma StripPrefixInjective()
    ensures forall a, b :: IsParamKey(a) && IsParamKey(b) && StripPrefix(a) == StripPrefix(b) ==> a == b
  {
    forall a, b | IsParamKey(a) && IsParamKey(b) && StripPrefix(a) == StripPrefix(b)
      ensures a == b
    {
      assert a == ParamsPrefix + StripPrefix(a);
      assert b == ParamsPrefix + StripPrefix(b);
    }
  }

  /** What `getSqlParams` builds: every property key that starts with
      "params.", without that prefix, mapped to the value looked up under the
      full key. */
  function SqlParams(keys: set<string>, lookup: string -> string): (m: map<string, string>)
    ensures forall name :: name in m ==> ParamsPrefix + name in keys && m[name] == lookup(ParamsPrefix + name)
  {
    StripPrefixInjective();
    StripPrefixRestores();
    map k | k in keys && IsParamKey(k) :: StripPrefix(k) := lookup(k)
  }

  /** Putting the prefix back gives the original key. */
  lemma StripPrefixRestores()
    ensures forall k :: IsParamKey(k) ==> ParamsPrefix + StripPrefix(k) == k
  {
    forall k | IsParamKey(k)
      ensures ParamsPrefix + StripPrefix(k) == k
    {
      assert k == k[..|ParamsPrefix|] + k[|ParamsPrefix|..];
    }
  }

  /** `getSqlParams`: a pass over the property keys that puts each
      "params." key into a fresh map. */
  method GetSqlParams(keys: set<string>, lookup: string -> string) returns (params: map<string, string>)
    ensures params == SqlParams(keys, lookup)
  {
    params := map[];
    var remaining := keys;
    while remaining != {}
      invariant remaining <= keys
      invariant params == SqlParams(keys - remaining, lookup)
      decreases remaining
    {
      var key :| key in remaining;
      SqlParamsInsert(keys - remaining, key, lookup);
      if IsParamKey(key) {
        params := params[StripPrefix(key) := lookup(key)];
      }
      remaining := remaining - {key};
      assert keys - remaining == (keys - (remaining + {key})) + {key};
    }
  }

  /** Taking one more key into account adds its entry, if it has one. */
  lemma SqlParamsInsert(done: set<string>, key: string, lookup: string -> string)
    ensures SqlParams(done + {key}, lookup) ==
              if IsParamKey(key) then SqlParams(done, lookup)[StripPrefix(key) := lookup(key)]
              else SqlParams(done, lookup)
  {
    StripPrefixInjective();
  }

  /** The keys of the result are exactly the "params." keys, stripped. */
  lemma SqlParamsKeys(keys: set<string>, lookup: string -> string)
    ensures forall s :: s in SqlParams(keys, lookup) <==> ParamsPrefix + s in keys
  {
    StripPrefixInjective();
    forall s
      ensures s in SqlParams(keys, lookup) <==> ParamsPrefix + s in keys
    {
      var full := ParamsPrefix + s;
      assert IsParamKey(full) && StripPrefix(full) == s;
      if s in SqlParams(keys, lookup) {
        var k :| k in keys && IsParamKey(k) && StripPrefix(k) == s;
        assert k == ParamsPrefix + StripPrefix(k);
      }
    }
  }

  /** Each entry holds the value looked up under its full original key. */
  lemma SqlParamsValues(keys: set<string>, lookup: string -> string)
    ensures forall k :: k in keys && IsParamKey(k) ==>
              StripPrefix(k) in SqlParams(keys, lookup) && SqlParams(keys, lookup)[StripPrefix(k)] == lookup(k)
  {
    StripPrefixInjective();
  }

  /** A key that does not start with "params." contributes nothing. */
  lemma NonParamKeyIgnored(keys: set<string>, key: string, lookup: string -> string)
    requires !IsParamKey(key)
    ensures SqlParams(keys + {key}, lookup) == SqlParams(keys, lookup)
  {
    SqlParamsInsert(keys, key, lookup);
  }

  function ParamKeys(keys: set<string>): set<string> {
    set k | k in keys && IsParamKey(k)
  }

  /** Stripping the prefix from distinct "params." keys gives as many
      distinct names. */
  lemma {:induction false} StrippedCount(ks: set<string>)
    requires forall k :: k in ks ==> IsParamKey(k)
    ensures |set k | k in ks :: StripPrefix(k)| == |ks|
    decreases |ks|
  {
    if ks != {} {
      var key :| key in ks;
      var rest := ks - {key};
      StrippedCount(rest);
      StripPrefixInjective();
      var image := set k | k in ks :: StripPrefix(k);
      var restImage := set k | k in rest :: StripPrefix(k);
      assert image == restImage + {StripPrefix(key)};
      assert StripPrefix(key) !in restImage;
    }
  }

  /** Distinct "params." keys give distinct entries: the map has one entry
      per such key. */
  lemma SqlParamsSize(keys: set<string>, lookup: string -> string)
    ensures |SqlParams(keys, lookup)| == |ParamKeys(keys)|
  {
    var m := SqlParams(keys, lookup);
    var ks := ParamKeys(keys);
    assert m.Keys == set k | k in ks :: StripPrefix(k);
    StrippedCount(ks);
  }

  /** The fields of a constructed `MemSQLSinkConfig`. */
  datatype Config = Config(
    ddlEndpoint: string,
    dmlEndpoints: Option<seq<string>>,
    database: string,
    user: Option<string>,
    password: Option<string>,
    sqlParams: map<string, string>,
    maxRetries: int,
    retryBackoffMs: int)

  /** The properties the constructor accepts: both required settings are
      supplied, every supplied setting has its declared type, and the retry
      settings are not negative. */
  predicate Acceptable(props: map<string, Value>) {
    && DdlEndpoint.name in props && props[DdlEndpoint.name].Str?
    && ConnectionDatabase.name in props && props[ConnectionDatabase.name].Str?
    && (DmlEndpoints.name in props ==> props[DmlEndpoints.name].Items?)
    && (ConnectionUser.name in props ==> props[ConnectionUser.name].Str?)
    && (ConnectionPassword.name in props ==> props[ConnectionPassword.name].Secret?)
    && (SqlParameters.name in props ==> props[SqlParameters.name].Str?)
    && (MaxRetries.name in props ==> props[MaxRetries.name].Number? && props[MaxRetries.name].number >= 0)
    && (RetryBackoffMs.name in props ==> props[RetryBackoffMs.name].Number? && props[RetryBackoffMs.name].number >= 0)
  }

  /** The constructor: every declared setting is checked in declaration
      order (the first bad one is reported), then the fields are read.
      `lookup` is Kafka's `getString` on a "params." key. */
  function NewConfig(props: map<string, Value>, lookup: string -> string): (r: Result<Config, ConfigError>)
    ensures r.Success? <==> Acceptable(props)
    ensures DdlEndpoint.name !in props ==> r == Failure(MissingRequired(DdlEndpoint.name))
    ensures r.Success? ==> props[DdlEndpoint.name] == Str(r.value.ddlEndpoint)
    ensures r.Success? ==> props[ConnectionDatabase.name] == Str(r.value.database)
    ensures r.Success? && DmlEndpoints.name in props ==> r.value.dmlEndpoints == Some(props[DmlEndpoints.name].items)
    ensures r.Success? && DmlEndpoints.name !in props ==> r.value.dmlEndpoints.None?
    ensures r.Success? && ConnectionUser.name in props ==> r.value.user == Some(props[ConnectionUser.name].text)
    ensures r.Success? && ConnectionUser.name !in props ==> r.value.user.None?
    ensures r.Success? && ConnectionPassword.name in props ==>
              r.value.password == Some(props[ConnectionPassword.name].secret.value)
    ensures r.Success? && ConnectionPassword.name !in props ==> r.value.password.None?
    ensures r.Success? ==> r.value.maxRetries >= 0 && r.value.retryBackoffMs >= 0
    ensures r.Success? && MaxRetries.name in props ==> r.value.maxRetries == props[MaxRetries.name].number
    ensures r.Success? && MaxRetries.name !in props ==> r.value.maxRetries == 10
    ensures r.Success? && RetryBackoffMs.name in props ==> r.value.retryBackoffMs == props[RetryBackoffMs.name].number
    ensures r.Success? && RetryBackoffMs.name !in props ==> r.value.retryBackoffMs == 3000
    ensures r.Success? ==> r.value.sqlParams == SqlParams(props.Keys, lookup)
  {
    match GetString(props, DdlEndpoint)
    case Failure(e) => Failure(e)
    case Success(ddl) =>
    match GetList(props, DmlEndpoints)
    case Failure(e) => Failure(e)
    case Success(dml) =>
    match GetString(props, ConnectionDatabase)
    case Failure(e) => Failure(e)
    case Success(database) =>
    match GetString(props, ConnectionUser)
    case Failure(e) => Failure(e)
    case Success(user) =>
    match GetPassword(props, ConnectionPassword)
    case Failure(e) => Failure(e)
    case Success(password) =>
    match GetString(props, SqlParameters)
    case Failure(e) => Failure(e)
    case Success(_) =>
    match GetInt(props, MaxRetries)
    case Failure(e) => Failure(e)
    case Success(maxRetries) =>
    match GetInt(props, RetryBackoffMs)
    case Failure(e) => Failure(e)
    case Success(backoff) =>
      Success(Config(ddl.value, dml, database.value, user, PasswordValue(password),
                     SqlParams(props.Keys, lookup), maxRetries, backoff))
  }
}
