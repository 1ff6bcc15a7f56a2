/**
 * Firestore documents as the admin pages and the cloud function see them,
 * and a collection that `updateDoc` changes in place.
 */
module Documents {
  import opened Options

  /**
   * A document read as `{ id: doc.id, ...doc.data() }`: its id, its string
   * fields (a field that is absent is `undefined`), and the optional
   * `isDeactivated` flag.
   */
  datatype Doc = Doc(id: string, fields: map<string, string>, isDeactivated: Option<bool>)

  /** JavaScript truthiness of the optional flag: a missing flag is falsy. */
  predicate Truthy(b: Option<bool>) { b == Some(true) }

  predicate IsDeactivated(d: Doc) { Truthy(d.isDeactivated) }

  predicate IsActive(d: Doc) { !Truthy(d.isDeactivated) }

  /** The field value, or `""` when the field is missing: `d[name] || ""` on a string field. */
  function FieldOr(d: Doc, name: string): string
  {
    if name in d.fields then d.fields[name] else ""
  }

  /** The second argument of an `updateDoc` call. */
  datatype Patch = SetDeactivated(flag: bool) | SetFields(values: map<string, string>)

  /** `updateDoc` merges the patch into the stored document and keeps its id. */
  function Patched(d: Doc, p: Patch): (r: Doc)
    ensures r.id == d.id
    ensures p.SetDeactivated? ==> r.fields == d.fields && r.isDeactivated == Some(p.flag)
    ensures p.SetFields? ==> r.isDeactivated == d.isDeactivated && r.fields.Keys == d.fields.Keys + p.values.Keys
    ensures p.SetFields? ==> forall n :: n in p.values ==> r.fields[n] == p.values[n]
    ensures p.SetFields? ==> forall n :: n in d.fields && n !in p.values ==> r.fields[n] == d.fields[n]
  {
    match p
    case SetDeactivated(flag) => d.(isDeactivated := Some(flag))
    case SetFields(values) => d.(fields := d.fields + values)
  }

  /** One Firestore collection (`users` or `vendors`), keyed by document id. */
  class Collection {
    var docs: map<string, Doc>
    /** The ids of the successful `updateDoc` calls, oldest first. */
    var writes: seq<string>

    /**
     * Every document is stored under its own id, as a fetched list reads
     * them (`{ id: doc.id, ...doc.data() }`). No proof depends on it; every
     * method keeps it so that a collection always has that fetched shape.
     */
    ghost predicate Valid()
      reads this
    {
      forall k :: k in docs ==> docs[k].id == k
    }

    constructor (initial: map<string, Doc>)
      requires forall k :: k in initial ==> initial[k].id == k
      ensures Valid() && docs == initial && writes == []
    {
      docs := initial;
      writes := [];
    }

    /**
     * `updateDoc(doc(db, collection, id), patch)`: fails (Firestore's
     * "not found") when no document has that id; otherwise merges the patch.
     */
    method UpdateDoc(id: string, patch: Patch) returns (ok: bool)
      requires Valid()
      modifies this
      ensures Valid()
      ensures ok <==> id in old(docs)
      ensures docs == if ok then old(docs)[id := Patched(old(docs)[id], patch)] else old(docs)
      ensures writes == if ok then old(writes) + [id] else old(writes)
    {
      ok := id in docs;
      if ok {
        docs := docs[id := Patched(docs[id], patch)];
        writes := writes + [id];
      }
    }
  }
}
