/** Identities, and the table of them built from the auth file. */
module Auth {
  import opened Tokens

  datatype Identity = Identity(valid: bool, namespace: string, taskQueues: seq<string>, subject: string)
  {
    predicate AllowsTaskQueue(taskQueue: string) {
      taskQueue in taskQueues
    }

    /** May this identity act for tasks issued to `e`? */
    predicate Owns(e: Entry) {
      e.namespace == namespace && AllowsTaskQueue(e.taskQueue)
    }
  }

  const NOBODY := Identity(false, "", [], "")

  datatype KeyEntry = KeyEntry(namespace: string, taskQueues: seq<string>, subject: string)

  /** An entry the loader accepts. */
  predicate Acceptable(e: KeyEntry) {
    e.namespace != "" && e.taskQueues != [] && forall q :: q in e.taskQueues ==> q != ""
  }

  function Resolve(e: KeyEntry): Identity {
    Identity(true, e.namespace, e.taskQueues, e.subject)
  }

  /** The guarantees the rest of the proxy relies on. */
  predicate Sound(id: Identity) {
    id.valid && id.namespace != "" && id.taskQueues != [] && forall q :: q in id.taskQueues ==> q != ""
  }

  method ValidateTaskQueues(taskQueues: seq<string>) returns (out: Option<seq<string>>)
    ensures out == if taskQueues != [] && (forall q :: q in taskQueues ==> q != "") then Some(taskQueues) else None
  {
    if |taskQueues| == 0 {
      return None;
    }
    var copy: seq<string> := [];
    var i := 0;
    while i < |taskQueues|
      invariant 0 <= i <= |taskQueues|
      invariant copy == taskQueues[..i] && forall j :: 0 <= j < i ==> taskQueues[j] != ""
    {
      if taskQueues[i] == "" {
        assert taskQueues[i] in taskQueues;
        return None;
      }
      copy := copy + [taskQueues[i]];
      i := i + 1;
    }
    assert copy == taskQueues;
    return Some(copy);
  }

  type Table = map<string, Identity>

  /** Every entry is acceptable; the table has exactly the keys `keyOf` gives, each with the identity of
      an entry it was made from. */
  ghost predicate BuiltFrom(table: Table, entries: map<string, KeyEntry>, keyOf: string -> string) {
    && (forall k :: k in entries ==> Acceptable(entries[k]))
    && table.Keys == (set k | k in entries :: keyOf(k))
    && (forall m :: m in table ==> exists k :: k in entries && keyOf(k) == m && table[m] == Resolve(entries[k]))
  }

  /** Entries are visited in an arbitrary order. Loading fails if and only if some entry is not
      acceptable; otherwise the table is built from all of them. */
  method BuildIdentities(entries: map<string, KeyEntry>, keyOf: string -> string) returns (table: Option<Table>)
    ensures table.None? <==> exists k :: k in entries && !Acceptable(entries[k])
    ensures table.Some? ==> BuiltFrom(table.value, entries, keyOf)
  {
    var identities: Table := map[];
    var rest := entries.Keys;
    ghost var done: set<string> := {};
    while rest != {}
      invariant rest <= entries.Keys && done == entries.Keys - rest
      invariant forall k :: k in done ==> Acceptable(entries[k])
      invariant identities.Keys == set k | k in done :: keyOf(k)
      invariant forall m :: m in identities ==>
                  exists k :: k in done && keyOf(k) == m && identities[m] == Resolve(entries[k])
      decreases |rest|
    {
      var lookupKey :| lookupKey in rest;
      var entry := entries[lookupKey];
      if entry.namespace == "" {
        return None;
      }
      var taskQueues := ValidateTaskQueues(entry.taskQueues);
      if taskQueues.None? {
        return None;
      }
      var mapKey := keyOf(lookupKey);
      ghost var was := identities;
      identities := identities[mapKey := Identity(true, entry.namespace, taskQueues.value, entry.subject)];
      rest := rest - {lookupKey};
      done := done + {lookupKey};
      forall m | m in identities
        ensures exists k :: k in done && keyOf(k) == m && identities[m] == Resolve(entries[k])
      {
        if m == mapKey {
          assert lookupKey in done && identities[m] == Resolve(entries[lookupKey]);
        } else {
          var k :| k in done - {lookupKey} && keyOf(k) == m && was[m] == Resolve(entries[k]);
        }
      }
    }
    return Some(identities);
  }

  function Authenticate(table: Table, keyOf: string -> string, key: string): Identity {
    if keyOf(key) in table then table[keyOf(key)] else NOBODY
  }

  /** With a hash that does not collide, a key authenticates as its own entry and as nothing else:
      a key that is not in the file is nobody, and every identity handed out has a namespace and at
      least one queue, none of them empty. */
  lemma AuthenticatesAsWritten(table: Table, entries: map<string, KeyEntry>, keyOf: string -> string, key: string)
    requires BuiltFrom(table, entries, keyOf)
    requires forall a, b :: keyOf(a) == keyOf(b) ==> a == b
    ensures var id := Authenticate(table, keyOf, key);
      key in entries ==>
        && id.valid && id.namespace == entries[key].namespace
        && id.taskQueues == entries[key].taskQueues && id.subject == entries[key].subject
    ensures key !in entries ==> !Authenticate(table, keyOf, key).valid
    ensures Authenticate(table, keyOf, key).valid ==> Sound(Authenticate(table, keyOf, key))
  {
    if keyOf(key) in table {
      var k :| k in entries && keyOf(k) == keyOf(key) && table[keyOf(key)] == Resolve(entries[k]);
    }
  }
}
