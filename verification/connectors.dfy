/**
  The connector registry: connectors registered by name, listed in the
  order they were first registered, and executed by name with the
  not-found and exception paths turned into failed results. A
  connector's own `execute` is outside the model; what it did is an
  input, and so are the clock readings and the ISO timestamp.
 */
module Connectors {
  import opened StringUtil
  import opened Options
  import JsonValue
  import opened JsMap

  /** A connector's identity; its behaviour is supplied to `Execute` as an outcome. */
  datatype Connector = Connector(name: string, description: string)

  /**
    The metadata of a result. `extra` holds any further keys a connector
    put there, which survive the registry's rewrite of the duration and
    the timestamp.
   */
  datatype ResultMetadata = ResultMetadata(duration: int, timestamp: string, extra: seq<JsonValue.Member>)

  datatype ConnectorResult = ConnectorResult(
    success: bool,
    data: Option<JsonValue.Json>,
    error: Option<string>,
    metadata: Option<ResultMetadata>)

  /** What a connector's `execute` did: returned a result, or threw (an `Error` with its message, or something else). */
  datatype Outcome =
    | Returned(result: ConnectorResult)
    | Threw(message: Option<string>)

  /**
    `createResult`: the given success, data and error, with a zero
    duration stamped at `now`.
   */
  function CreateResult(success: bool, data: Option<JsonValue.Json>, error: Option<string>, now: string): (r: ConnectorResult)
    ensures r.success == success && r.data == data && r.error == error
    ensures r.metadata.Some? && r.metadata.value.duration == 0 && r.metadata.value.timestamp == now
  {
    ConnectorResult(success, data, error, Some(ResultMetadata(0, now, [])))
  }

  /** The registry's map from names to connectors. */
  type Registry = OrderedMap<Connector>

  /** `register`: stores the connector under its name, replacing an earlier one of the same name. */
  function Register(reg: Registry, c: Connector): (r: Registry)
    requires Valid(reg)
    ensures Valid(r)
    ensures Get(r, c.name) == Some(c)
    ensures forall name :: name != c.name ==> Get(r, name) == Get(reg, name)
    ensures c.name in reg.entries ==> List(r) == List(reg)
    ensures c.name !in reg.entries ==> List(r) == List(reg) + [c.name]
  {
    Set(reg, c.name, c)
  }

  /** `list`: the registered names in registration order. */
  function List(reg: Registry): (names: seq<string>)
    requires Valid(reg)
    ensures NoDuplicates(names)
    ensures forall name :: name in names <==> Get(reg, name).Some?
  {
    reg.keys
  }

  /** Registering the connectors of a sequence one after the other. */
  function RegisterAll(reg: Registry, cs: seq<Connector>): (r: Registry)
    requires Valid(reg)
    ensures Valid(r)
    decreases |cs|
  {
    if |cs| == 0 then reg else RegisterAll(Register(reg, cs[0]), cs[1..])
  }

  /** After registering a sequence, the list holds exactly the earlier names and the registered ones. */
  lemma {:induction false} ListAfterRegisterAll(reg: Registry, cs: seq<Connector>)
    requires Valid(reg)
    ensures forall name :: name in List(RegisterAll(reg, cs)) <==>
      name in List(reg) || exists k :: 0 <= k < |cs| && cs[k].name == name
    decreases |cs|
  {
    if |cs| > 0 {
      ListAfterRegisterAll(Register(reg, cs[0]), cs[1..]);
      forall name | name in List(RegisterAll(reg, cs))
        ensures name in List(reg) || exists k :: 0 <= k < |cs| && cs[k].name == name
      {
        if name !in List(reg) && name != cs[0].name {
          assert name !in List(Register(reg, cs[0]));
          var k :| 0 <= k < |cs[1..]| && cs[1..][k].name == name;
          assert cs[k + 1].name == name;
        }
      }
      forall name | name in List(reg) || exists k :: 0 <= k < |cs| && cs[k].name == name
        ensures name in List(RegisterAll(reg, cs))
      {
        if name !in List(reg) && name != cs[0].name {
          var k :| 0 <= k < |cs| && cs[k].name == name;
          assert k > 0 && cs[1..][k - 1].name == name;
        }
      }
    }
  }

  /** The connector found under a name is the last one registered with that name. */
  lemma {:induction false} GetAfterRegisterAll(reg: Registry, cs: seq<Connector>, k: nat)
    requires Valid(reg) && k < |cs|
    requires forall j :: k < j < |cs| ==> cs[j].name != cs[k].name
    ensures Get(RegisterAll(reg, cs), cs[k].name) == Some(cs[k])
    decreases |cs|
  {
    if k == 0 {
      RegisterAllKeeps(Register(reg, cs[0]), cs[1..], cs[0].name);
    } else {
      GetAfterRegisterAll(Register(reg, cs[0]), cs[1..], k - 1);
    }
  }

  /** A name none of the sequence registers finds what it found before. */
  lemma {:induction false} RegisterAllKeeps(reg: Registry, cs: seq<Connector>, name: string)
    requires Valid(reg)
    requires forall j :: 0 <= j < |cs| ==> cs[j].name != name
    ensures Get(RegisterAll(reg, cs), name) == Get(reg, name)
    decreases |cs|
  {
    if |cs| > 0 {
      RegisterAllKeeps(Register(reg, cs[0]), cs[1..], name);
    }
  }

  const UnknownError := "Unknown error"

  /** The not-found message, `Connector '<name>' not found`. */
  function NotFoundMessage(name: string): (m: string)
    ensures |m| == |name| + |"Connector '"| + |"' not found"|
    ensures StartsWith(m, "Connector '") && EndsWith(m, "' not found")
    ensures m[|"Connector '"|..|m| - |"' not found"|] == name
  {
    var m := "Connector '" + name + "' not found";
    assert m[..|"Connector '"|] == "Connector '";
    assert m[|m| - |"' not found"|..] == "' not found";
    m
  }

  /**
    `execute`: an unknown name fails at once with a zero duration;
    otherwise the connector's outcome is taken, its duration measured
    from `startTime` to `endTime` and its timestamp kept when it had a
    non-empty one; a throw becomes a failed result carrying the message.
   */
  function Execute(reg: Registry, name: string, outcome: Outcome, startTime: int, endTime: int, now: string)
    : (r: ConnectorResult)
    ensures r.metadata.Some?
    ensures name !in reg.entries ==>
              !r.success && r.error == Some(NotFoundMessage(name)) && r.metadata.value.duration == 0
              && r.data == None
    ensures name in reg.entries ==> r.metadata.value.duration == endTime - startTime
    ensures name in reg.entries && outcome.Threw? ==>
              !r.success && r.data == None
              && r.error == Some(if outcome.message.Some? then outcome.message.value else UnknownError)
    ensures name in reg.entries && outcome.Returned? ==>
              r.success == outcome.result.success && r.data == outcome.result.data
              && r.error == outcome.result.error
    ensures r.success ==> name in reg.entries && outcome.Returned? && outcome.result.success
  {
    if Get(reg, name).None? then
      ConnectorResult(false, None, Some(NotFoundMessage(name)), Some(ResultMetadata(0, now, [])))
    else
      match outcome
      case Returned(result) =>
        var kept := if result.metadata.Some? && result.metadata.value.timestamp != "" then result.metadata.value.timestamp else now;
        var extra := if result.metadata.Some? then result.metadata.value.extra else [];
        result.(metadata := Some(ResultMetadata(endTime - startTime, kept, extra)))
      case Threw(message) =>
        ConnectorResult(false, None, Some(if message.Some? then message.value else UnknownError),
                        Some(ResultMetadata(endTime - startTime, now, [])))
  }

  /** A connector's own timestamp survives the registry's rewrite of the metadata; an empty one is replaced. */
  lemma ExecuteKeepsTimestamp(reg: Registry, name: string, result: ConnectorResult, startTime: int, endTime: int, now: string)
    requires name in reg.entries
    ensures var r := Execute(reg, name, Returned(result), startTime, endTime, now);
      r.metadata.value.timestamp ==
        (if result.metadata.Some? && result.metadata.value.timestamp != "" then result.metadata.value.timestamp else now)
  {
  }
}
