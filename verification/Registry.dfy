/** The in-memory schema registry and its string keys. */
module Registry {
  import opened Wrappers
  import Decimal

  /** A schema, as far as the registry looks at it. */
  datatype Schema = Schema(eventType: string, version: int, fields: seq<string>)

  /** The key format "%s:v%d". */
  function SchemaKey(eventType: string, version: int): string {
    eventType + ":v" + Decimal.Print(version)
  }

  /** The position of the last 'v' of a string, or -1. */
  function LastV(s: string): int {
    if s == "" then -1
    else if s[|s| - 1] == 'v' then |s| - 1
    else LastV(s[..|s| - 1])
  }

  predicate HasNoV(s: string) {
    forall i :: 0 <= i < |s| ==> s[i] != 'v'
  }

  lemma PrintHasNoV(n: int)
    ensures HasNoV(Decimal.Print(n))
  {
  }

  lemma {:induction false} LastVOfConcat(head: string, tail: string)
    requires HasNoV(tail) && head != "" && head[|head| - 1] == 'v'
    ensures LastV(head + tail) == |head| - 1
    decreases |tail|
  {
    if tail == "" {
      assert head + tail == head;
    } else {
      var most := tail[..|tail| - 1];
      assert (head + tail)[..|head + tail| - 1] == head + most;
      LastVOfConcat(head, most);
    }
  }

  /** The key determines the pair, even for types that themselves contain ":v" and digits: the last 'v' ends the
      prefix, because no printed number contains one. */
  lemma SchemaKeyInjective(t1: string, v1: int, t2: string, v2: int)
    requires SchemaKey(t1, v1) == SchemaKey(t2, v2)
    ensures t1 == t2 && v1 == v2
  {
    PrintHasNoV(v1);
    PrintHasNoV(v2);
    LastVOfConcat(t1 + ":v", Decimal.Print(v1));
    LastVOfConcat(t2 + ":v", Decimal.Print(v2));
    assert SchemaKey(t1, v1) == t1 + ":v" + Decimal.Print(v1);
    assert SchemaKey(t2, v2) == t2 + ":v" + Decimal.Print(v2);
    var n := |t1|;
    assert |t2| == n;
    assert t1 == SchemaKey(t1, v1)[..n] && t2 == SchemaKey(t2, v2)[..n];
    assert Decimal.Print(v1) == SchemaKey(t1, v1)[n + 2..] && Decimal.Print(v2) == SchemaKey(t2, v2)[n + 2..];
    Decimal.PrintInjective(v1, v2);
  }

  /** The registry as a map keyed by the pair; the last registration wins. */
  function Latest(registered: seq<Schema>): map<(string, int), Schema> {
    if registered == [] then map[]
    else
      var last := registered[|registered| - 1];
      Latest(registered[..|registered| - 1])[(last.eventType, last.version) := last]
  }

  function Lookup(registered: seq<Schema>, eventType: string, version: int): Option<Schema> {
    var m := Latest(registered);
    if (eventType, version) in m then Some(m[(eventType, version)]) else None
  }

  class InMemorySchemaRegistry {
    var schemas: map<string, Schema>
    ghost var registered: seq<Schema>

    /** The string-keyed map stands for the pair-keyed one. */
    ghost predicate Valid()
      reads this
    {
      && (forall t: string, v: int :: (t, v) in Latest(registered) <==> SchemaKey(t, v) in schemas)
      && (forall t: string, v: int :: (t, v) in Latest(registered) ==>
          schemas[SchemaKey(t, v)] == Latest(registered)[(t, v)])
    }

    constructor ()
      ensures Valid() && registered == []
    {
      schemas := map[];
      registered := [];
    }

    method RegisterSchema(schema: Schema)
      requires Valid()
      modifies this
      ensures Valid() && registered == old(registered) + [schema]
    {
      var key := SchemaKey(schema.eventType, schema.version);
      schemas := schemas[key := schema];
      registered := registered + [schema];
      assert registered[..|registered| - 1] == old(registered);
      forall t: string, v: int | SchemaKey(t, v) == key ensures t == schema.eventType && v == schema.version {
        SchemaKeyInjective(t, v, schema.eventType, schema.version);
      }
    }

    /** After any registrations, the answer of the pair-keyed map. */
    method Get(eventType: string, version: int) returns (schema: Option<Schema>)
      requires Valid()
      ensures schema == Lookup(registered, eventType, version)
    {
      var key := SchemaKey(eventType, version);
      return if key in schemas then Some(schemas[key]) else None;
    }
  }

  /** A pair is found exactly when it was registered, and what is found was registered under it. */
  lemma {:induction false} FoundWhenRegistered(registered: seq<Schema>, eventType: string, version: int)
    ensures Lookup(registered, eventType, version).Some?
       <==> exists i :: 0 <= i < |registered|
                        && registered[i].eventType == eventType && registered[i].version == version
    ensures var found := Lookup(registered, eventType, version);
      found.Some? ==> found.value in registered && found.value.eventType == eventType && found.value.version == version
  {
    if registered != [] {
      var before, last := registered[..|registered| - 1], registered[|registered| - 1];
      FoundWhenRegistered(before, eventType, version);
      assert registered == before + [last];
      if i :| 0 <= i < |before| && before[i].eventType == eventType && before[i].version == version {
        assert registered[i] == before[i];
      }
    }
  }

  /** The most recent registration of a pair is the one found. */
  lemma {:induction false} LastRegistrationWins(registered: seq<Schema>, i: nat)
    requires i < |registered|
    requires forall j :: i < j < |registered| ==>
      registered[j].eventType != registered[i].eventType || registered[j].version != registered[i].version
    ensures Lookup(registered, registered[i].eventType, registered[i].version) == Some(registered[i])
  {
    if i < |registered| - 1 {
      LastRegistrationWins(registered[..|registered| - 1], i);
    }
  }
}
