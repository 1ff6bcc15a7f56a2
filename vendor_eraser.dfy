/**
 * The `deleteVendorAndData` HTTPS function: on a POST it deletes the
 * vendor's authentication principal, then deletes the vendor document and
 * every product whose `vendorId` is the vendor's uid in one write batch.
 * The identity store and the document store are abstract state; their
 * failures are parameters.
 */
module VendorEraser {
  import opened Options
  import opened Documents
  import Text

  /** A document reference in the batch: `vendors/<id>` or `products/<id>`. */
  datatype DocRef = VendorDoc(id: string) | ProductDoc(id: string)

  /** The identity store's uids and the two collections the function touches. */
  datatype Store = Store(auth: set<string>, vendors: map<string, Doc>, products: map<string, Doc>)

  /** The HTTP method and `req.body.uid` (which may be missing). */
  datatype Request = Request(httpMethod: string, uid: Option<string>)

  /** Failures of the collaborators that the request cannot influence. */
  datatype Faults = Faults(authUnavailable: bool, queryFails: bool, commitFails: bool)

  /** The error whose message ends up in the `error` field of the response. */
  datatype ErrorKind = InvalidUid | UserNotFound | AuthUnavailable | BadDocumentPath | QueryFailed | CommitFailed

  /** `send(text)`, `json({success: true, message})` or `json({success: false, error})`. */
  datatype Body = Text(text: string) | Succeeded(message: string) | Failed(error: ErrorKind)

  datatype Response = Response(status: nat, body: Body)

  datatype Outcome = Outcome(store: Store, response: Response)

  /** The identity store accepts a uid that is a non-empty string of at most 128 characters. */
  predicate ValidUid(uid: string) { 0 < |uid| <= 128 }

  /**
   * A uid that `collection("vendors").doc(uid)` takes as one document id.
   * The reference constructor reads a slash as a path separator, and some
   * slashed uids make it throw; the model treats every slashed uid so.
   */
  predicate DocumentId(uid: string) { '/' !in uid }

  /** The product query `where("vendorId", "==", uid)`. */
  predicate OwnedBy(product: Doc, uid: string)
  {
    "vendorId" in product.fields && product.fields["vendorId"] == uid
  }

  function MatchingProducts(products: map<string, Doc>, uid: string): set<string>
  {
    set k | k in products && OwnedBy(products[k], uid)
  }

  function SuccessMessage(uid: string): string
  {
    "Vendor " + uid + " and all related data deleted successfully."
  }

  const Forbidden: Response := Response(403, Text("Forbidden!"))

  /** The `cors` middleware's own answer to a preflight: 204 with an empty body, the handler never runs. */
  const Preflight: Response := Response(204, Text(""))

  // ------------------------------------------------------------ the batch

  function VendorIds(batch: seq<DocRef>): set<string>
  {
    set r | r in batch && r.VendorDoc? :: r.id
  }

  function ProductIds(batch: seq<DocRef>): set<string>
  {
    set r | r in batch && r.ProductDoc? :: r.id
  }

  /** The store after the batch's deletions, applied in batch order (deleting a missing document is no error). */
  function ApplyBatch(s: Store, batch: seq<DocRef>): Store
  {
    if batch == [] then s
    else
      var before := ApplyBatch(s, batch[..|batch| - 1]);
      match batch[|batch| - 1]
      case VendorDoc(id) => before.(vendors := before.vendors - {id})
      case ProductDoc(id) => before.(products := before.products - {id})
  }

  /** Applying the batch removes exactly the referenced documents, whatever their order, and leaves the identity store alone. */
  lemma {:induction false} ApplyBatchRemoves(s: Store, batch: seq<DocRef>)
    ensures ApplyBatch(s, batch) == Store(s.auth, s.vendors - VendorIds(batch), s.products - ProductIds(batch))
  {
    if batch != [] {
      var init := batch[..|batch| - 1];
      ApplyBatchRemoves(s, init);
      assert batch == init + [batch[|batch| - 1]];
      assert VendorIds(batch) == VendorIds(init) + (if batch[|batch| - 1].VendorDoc? then {batch[|batch| - 1].id} else {});
      assert ProductIds(batch) == ProductIds(init) + (if batch[|batch| - 1].ProductDoc? then {batch[|batch| - 1].id} else {});
    }
  }

  // ------------------------------------------------------- the reference

  /**
   * What one request does: the preflight answered by `cors`, the method
   * check, the principal deletion, the vendor document reference, the
   * product query, then one atomic commit of the vendor document and the
   * queried products; any thrown error becomes a 500. Nothing is ever
   * created, and the documents change only on a success.
   */
  function Erase(s: Store, req: Request, faults: Faults): (r: Outcome)
    ensures r.store.auth <= s.auth && r.store.vendors.Keys <= s.vendors.Keys && r.store.products.Keys <= s.products.Keys
    ensures r.response.status != 200 ==> r.store.vendors == s.vendors && r.store.products == s.products
    ensures r.response.status in {200, 204, 403, 500}
  {
    if req.httpMethod == "OPTIONS" then Outcome(s, Preflight)
    else if req.httpMethod != "POST" then Outcome(s, Forbidden)
    else if req.uid.None? || !ValidUid(req.uid.value) then Outcome(s, Response(500, Failed(InvalidUid)))
    else
      var uid := req.uid.value;
      if faults.authUnavailable then Outcome(s, Response(500, Failed(AuthUnavailable)))
      else if uid !in s.auth then Outcome(s, Response(500, Failed(UserNotFound)))
      else
        var signedOut := s.(auth := s.auth - {uid});
        if !DocumentId(uid) then Outcome(signedOut, Response(500, Failed(BadDocumentPath)))
        else if faults.queryFails then Outcome(signedOut, Response(500, Failed(QueryFailed)))
        else if faults.commitFails then Outcome(signedOut, Response(500, Failed(CommitFailed)))
        else
          Outcome(signedOut.(vendors := s.vendors - {uid}, products := s.products - MatchingProducts(s.products, uid)),
                  Response(200, Succeeded(SuccessMessage(uid))))
  }

  /** A preflight is answered by `cors` with 204 and an empty body, and changes nothing. */
  lemma PreflightIsAnsweredByCors(s: Store, req: Request, faults: Faults)
    requires req.httpMethod == "OPTIONS"
    ensures Erase(s, req, faults) == Outcome(s, Response(204, Text("")))
  {
  }

  /** A request that reaches the handler and is not a POST is refused with 403 and changes nothing. */
  lemma NonPostIsForbidden(s: Store, req: Request, faults: Faults)
    requires req.httpMethod != "POST" && req.httpMethod != "OPTIONS"
    ensures Erase(s, req, faults) == Outcome(s, Response(403, Text("Forbidden!")))
  {
  }

  /** When the principal cannot be deleted, no document is touched: the batch is never committed. */
  lemma AuthFailureChangesNothing(s: Store, req: Request, faults: Faults)
    requires req.httpMethod == "POST"
    requires req.uid.None? || !ValidUid(req.uid.value) || faults.authUnavailable || req.uid.value !in s.auth
    ensures var r := Erase(s, req, faults);
            r.store == s && r.response.status == 500 && r.response.body.Failed?
  {
  }

  /**
   * The request succeeds exactly when it is a POST for a known principal
   * whose uid is a document id, and no collaborator fails.
   */
  lemma SuccessIff(s: Store, req: Request, faults: Faults)
    ensures Erase(s, req, faults).response.status == 200 <==>
              req.httpMethod == "POST" && req.uid.Some? && ValidUid(req.uid.value) && req.uid.value in s.auth &&
              DocumentId(req.uid.value) && !faults.authUnavailable && !faults.queryFails && !faults.commitFails
  {
  }

  /**
   * After a success the principal and the vendor document are gone, no
   * product of the vendor remains, and every other vendor, product and
   * principal is untouched.
   */
  lemma SuccessSweepsExactlyTheVendor(s: Store, req: Request, faults: Faults)
    requires Erase(s, req, faults).response.status == 200
    ensures req.uid.Some?
    ensures var uid := req.uid.value;
            var t := Erase(s, req, faults).store;
            t.auth == s.auth - {uid} &&
            uid !in t.vendors &&
            (forall k :: k in t.products ==> !OwnedBy(t.products[k], uid)) &&
            (forall v :: v in s.vendors && v != uid ==> v in t.vendors && t.vendors[v] == s.vendors[v]) &&
            (forall k :: k in s.products && !OwnedBy(s.products[k], uid) ==> k in t.products && t.products[k] == s.products[k]) &&
            t.vendors.Keys <= s.vendors.Keys && t.products.Keys <= s.products.Keys
  {
  }

  /** A vendor without products is erased too: exactly its document goes, and the products stay as they were. */
  lemma VendorWithoutProducts(s: Store, req: Request, faults: Faults)
    requires Erase(s, req, faults).response.status == 200
    requires req.uid.Some? && MatchingProducts(s.products, req.uid.value) == {}
    ensures var t := Erase(s, req, faults).store;
            t.products == s.products && t.vendors == s.vendors - {req.uid.value}
  {
  }

  /** The success body names the vendor's uid. */
  lemma SuccessMessageNamesVendor(s: Store, req: Request, faults: Faults)
    requires Erase(s, req, faults).response.status == 200
    ensures req.uid.Some?
    ensures var body := Erase(s, req, faults).response.body;
            body.Succeeded? && Text.Includes(body.message, req.uid.value)
  {
    Text.IncludesInfix("Vendor ", req.uid.value, " and all related data deleted successfully.");
  }

  /**
   * A failure after the principal was deleted (the vendor reference, the
   * query or the commit)
   * leaves every document in place but the principal gone, and answers with
   * the same 500 `success: false` envelope as a failure that changed
   * nothing: no distinct status marks the inconsistent state.
   */
  lemma LateFailureIsInconsistentButGeneric(s: Store, req: Request, faults: Faults)
    requires req.httpMethod == "POST" && req.uid.Some? && ValidUid(req.uid.value) && req.uid.value in s.auth
    requires !faults.authUnavailable && (!DocumentId(req.uid.value) || faults.queryFails || faults.commitFails)
    ensures var r := Erase(s, req, faults);
            var early := Erase(s, req.(uid := None), faults);
            r.store.vendors == s.vendors && r.store.products == s.products &&
            req.uid.value !in r.store.auth &&
            r.response.status == early.response.status == 500 &&
            r.response.body.Failed? && early.response.body.Failed? &&
            early.store == s
  {
  }

  /** Erasing the same vendor again after a success fails without changing anything. */
  lemma SecondEraseFails(s: Store, req: Request, faults: Faults, again: Faults)
    requires Erase(s, req, faults).response.status == 200
    ensures var t := Erase(s, req, faults).store;
            Erase(t, req, again).store == t && Erase(t, req, again).response.status == 500
  {
  }

  // ------------------------------------------------- the request handler

  /** The two Firebase services as mutable state. */
  class Backend {
    var auth: set<string>
    var vendors: map<string, Doc>
    var products: map<string, Doc>

    function State(): Store
      reads this
    {
      Store(auth, vendors, products)
    }

    constructor (initial: Store)
      ensures State() == initial
    {
      auth := initial.auth;
      vendors := initial.vendors;
      products := initial.products;
    }

    /** `admin.auth().deleteUser(uid)`: throws for a malformed or unknown uid, or when the service is down. */
    method DeleteUser(uid: Option<string>, unavailable: bool) returns (err: Option<ErrorKind>)
      modifies this`auth
      ensures err == if uid.None? || !ValidUid(uid.value) then Some(InvalidUid)
                     else if unavailable then Some(AuthUnavailable)
                     else if uid.value !in old(auth) then Some(UserNotFound)
                     else None
      ensures auth == if err.None? then old(auth) - {uid.value} else old(auth)
    {
      if uid.None? || !ValidUid(uid.value) {
        return Some(InvalidUid);
      }
      if unavailable {
        return Some(AuthUnavailable);
      }
      if uid.value !in auth {
        return Some(UserNotFound);
      }
      auth := auth - {uid.value};
      return None;
    }

    /** `collection("products").where("vendorId", "==", uid).get()`: the ids of the matching products. */
    method QueryProductsByVendor(uid: string, fails: bool) returns (ok: bool, snapshot: set<string>)
      ensures ok == !fails
      ensures ok ==> snapshot == MatchingProducts(products, uid)
    {
      if fails {
        return false, {};
      }
      return true, MatchingProducts(products, uid);
    }

    /** `batch.commit()`: all the batch's deletions, or (when it throws) none of them. */
    method Commit(batch: seq<DocRef>, fails: bool) returns (ok: bool)
      modifies this`vendors, this`products
      ensures ok == !fails
      ensures State() == if ok then ApplyBatch(old(State()), batch) else old(State())
    {
      if fails {
        return false;
      }
      ApplyBatchRemoves(State(), batch);
      var after := ApplyBatch(State(), batch);
      vendors, products := after.vendors, after.products;
      return true;
    }

    /** The request handler, step by step. */
    method DeleteVendorAndData(req: Request, faults: Faults) returns (resp: Response)
      modifies this
      ensures Outcome(State(), resp) == Erase(old(State()), req, faults)
    {
      if req.httpMethod == "OPTIONS" {
        return Preflight;
      }
      if req.httpMethod != "POST" {
        return Forbidden;
      }
      var err := DeleteUser(req.uid, faults.authUnavailable);
      if err.Some? {
        return Response(500, Failed(err.value));
      }
      var uid := req.uid.value;
      ghost var signedOut := State();
      if '/' in uid {
        return Response(500, Failed(BadDocumentPath));
      }
      var batch := [VendorDoc(uid)];
      var ok, snapshot := QueryProductsByVendor(uid, faults.queryFails);
      if !ok {
        return Response(500, Failed(QueryFailed));
      }
      var rest := snapshot;
      while rest != {}
        invariant rest <= snapshot
        invariant State() == signedOut
        invariant VendorIds(batch) == {uid}
        invariant ProductIds(batch) == snapshot - rest
        decreases rest
      {
        var k :| k in rest;
        ghost var before := batch;
        batch := batch + [ProductDoc(k)];
        assert forall r :: r in batch <==> r in before || r == ProductDoc(k);
        assert ProductIds(batch) == ProductIds(before) + {k};
        assert VendorIds(batch) == VendorIds(before);
        rest := rest - {k};
      }
      var committed := Commit(batch, faults.commitFails);
      if !committed {
        return Response(500, Failed(CommitFailed));
      }
      ApplyBatchRemoves(signedOut, batch);
      return Response(200, Succeeded(SuccessMessage(uid)));
    }
  }
}
