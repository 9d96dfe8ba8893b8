/** The keyword registry: a dictionary from a keyword name to a handler that
    turns the keyword's call arguments into a resource record. */
module ResourceMapper {

  /** The kinds of resource a handler can report. */
  datatype Kind = DB_TABLE | ADLS_PATH | DATABRICKS_JOB

  /** The record `{"type": <kind>, "name": <name>}` that a handler builds. */
  datatype ResourceRecord = ResourceRecord(kind: Kind, name: string)

  /** What looking up a keyword gives: no handler, a record, or the
      `TypeError` a one-parameter handler raises when it is applied to
      `given` positional arguments. */
  datatype Resolution =
    | NotRegistered
    | Resolved(record: ResourceRecord)
    | ArityMismatch(given: nat)

  /** The string written in the record's "type" field for each kind. */
  function TypeTag(k: Kind): (tag: string)
    ensures |tag| > 0
  {
    match k
    case DB_TABLE => "DB_TABLE"
    case ADLS_PATH => "ADLS_PATH"
    case DATABRICKS_JOB => "DATABRICKS_JOB"
  }

  /** Different kinds are written with different "type" strings, so the
      record's "type" field determines the kind. */
  lemma TypeTagInjective(j: Kind, k: Kind)
    ensures TypeTag(j) == TypeTag(k) <==> j == k
  {
  }

  /** A handler of the given kind applied to `args` positionally: a handler
      takes exactly one parameter, the resource's name. */
  function Handle(k: Kind, args: seq<string>): (r: Resolution)
    ensures r != NotRegistered
    ensures r.Resolved? <==> |args| == 1
    ensures r.Resolved? ==> r.record.kind == k && r.record.name == args[0]
    ensures r.ArityMismatch? ==> r.given == |args|
  {
    if |args| == 1 then Resolved(ResourceRecord(k, args[0])) else ArityMismatch(|args|)
  }

  /** Looks `name` up exactly in `registry` and applies the handler found
      there to `args`. */
  function Resolve(registry: map<string, Kind>, name: string, args: seq<string>): (r: Resolution)
    ensures r.NotRegistered? <==> name !in registry
    ensures r.Resolved? <==> name in registry && |args| == 1
    ensures r.Resolved? ==> r.record == ResourceRecord(registry[name], args[0])
    ensures r.ArityMismatch? ==> name in registry && r.given == |args| && |args| != 1
  {
    if name in registry then Handle(registry[name], args) else NotRegistered
  }

  /** After `name` is (re-)registered with `k`, resolving `name` uses `k`
      alone, whatever was registered before, and every other name resolves
      as it did. */
  lemma RegisterOverrides(registry: map<string, Kind>, name: string, k: Kind, other: string, args: seq<string>)
    ensures Resolve(registry[name := k], name, args) == Handle(k, args)
    ensures other != name ==> Resolve(registry[name := k], other, args) == Resolve(registry, other, args)
  {
  }

  /** The mutable registry object. */
  class KeywordResourceMapper {
    var keywordMap: map<string, Kind>

    constructor ()
      ensures keywordMap == map[]
    {
      keywordMap := map[];
    }

    /** Inserts `name`, or silently replaces the handler it had. */
    method RegisterKeyword(name: string, k: Kind)
      modifies this
      ensures keywordMap == old(keywordMap)[name := k]
      ensures keywordMap.Keys == old(keywordMap).Keys + {name}
      ensures keywordMap[name] == k
      ensures forall other :: other in old(keywordMap) && other != name ==> keywordMap[other] == old(keywordMap)[other]
    {
      keywordMap := keywordMap[name := k];
    }

    /** The record for a call of keyword `name` with arguments `args`, looked
        up in the current registry; reads the registry and changes nothing. */
    function GetResourceMetadata(name: string, args: seq<string>): (r: Resolution)
      reads this
      ensures r == Resolve(keywordMap, name, args)
      ensures name !in keywordMap ==> r == NotRegistered
    {
      if name in keywordMap then Handle(keywordMap[name], args) else NotRegistered
    }
  }
}
