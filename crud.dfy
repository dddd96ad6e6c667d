/** The list reconciliation the three screens share: how a list of records kept by a
    screen is brought in line with the server after a load, a create, an update or a
    delete. Records are whatever values the server sent; they are matched by `id`. */
module Crud {
  import opened JsValue
  import opened Http

  /** What a handler leaves for the user: nothing, an `alert` with a text, an `alert`
      showing a runtime error's own message (a TypeError or SyntaxError the browser wrote),
      or only a `console.error` line. */
  datatype Notice = Silent | Alert(text: string) | RuntimeErrorAlert | Logged

  /** `record.id` */
  function IdOf(record: Value): Value {
    Prop(record, "id")
  }

  /** `record.id === id` */
  predicate HasId(record: Value, id: Value) {
    StrictEquals(IdOf(record), id)
  }

  /** The alert a handler shows for an envelope it has read: the server's `message` when it
      has one, the handler's own default otherwise, and on a non-success envelope the text
      starts with the handler's error prefix. */
  function EnvelopeNotice(e: Envelope, done: string, errorPrefix: string, failed: string): (r: Notice)
    ensures r.Alert?
    ensures IsSuccess(e) && Truthy(e.message) ==> r.text == ToText(e.message)
    ensures IsSuccess(e) && !Truthy(e.message) ==> r.text == done
    ensures !IsSuccess(e) && Truthy(e.message) ==> r.text == errorPrefix + ToText(e.message)
    ensures !IsSuccess(e) && !Truthy(e.message) ==> r.text == errorPrefix + failed
  {
    if IsSuccess(e) then Alert(TextOr(e.message, done))
    else Alert(errorPrefix + TextOr(e.message, failed))
  }

  // ----- Load -----

  /** The list a load keeps from an envelope it has read:
      `status === 'success' && Array.isArray(data) ? data : []`. */
  function ArrayOrEmpty(e: Envelope): (r: seq<Value>)
    ensures IsSuccess(e) && e.data.Arr? ==> r == e.data.elems
    ensures r == [] || (IsSuccess(e) && e.data == Arr(r))
  {
    if IsSuccess(e) && e.data.Arr? then e.data.elems else []
  }

  /** The list after a load completes: replaced from the envelope the chain read, kept
      when the chain rejected before reading one. */
  function AfterLoad(prior: seq<Value>, answer: Option<Envelope>): (r: seq<Value>)
    ensures answer.None? ==> r == prior
    ensures answer.Some? ==> r == [] || (IsSuccess(answer.value) && answer.value.data == Arr(r))
    ensures answer.Some? && IsSuccess(answer.value) && answer.value.data.Arr? ==> r == answer.value.data.elems
  {
    match answer
    case Some(e) => ArrayOrEmpty(e)
    case None => prior
  }

  /** Loading twice with the same answer gives the same list as loading once, and a load
      that reads an envelope does not depend on the list it replaces. */
  lemma AfterLoadIdempotent(prior: seq<Value>, other: seq<Value>, answer: Option<Envelope>)
    ensures AfterLoad(AfterLoad(prior, answer), answer) == AfterLoad(prior, answer)
    ensures answer.Some? ==> AfterLoad(prior, answer) == AfterLoad(other, answer)
  {
  }

  // ----- Update: `list.map(x => x.id === record.id ? record : x)` -----

  function ReplaceById(list: seq<Value>, record: Value): (r: seq<Value>)
    ensures |r| == |list|
  {
    if list == [] then []
    else [if HasId(list[0], IdOf(record)) then record else list[0]] + ReplaceById(list[1..], record)
  }

  /** Position by position: an element whose id equals the record's id becomes the
      record; every other element stays where it was, as it was. */
  lemma {:induction false} ReplaceByIdAt(list: seq<Value>, record: Value, i: nat)
    requires i < |list|
    ensures ReplaceById(list, record)[i] == if HasId(list[i], IdOf(record)) then record else list[i]
    decreases i
  {
    if i > 0 {
      ReplaceByIdAt(list[1..], record, i - 1);
    }
  }

  /** An update whose id matches no element leaves the list as it was. */
  lemma {:induction false} ReplaceByIdNoMatch(list: seq<Value>, record: Value)
    requires forall x :: x in list ==> !HasId(x, IdOf(record))
    ensures ReplaceById(list, record) == list
  {
    if list != [] {
      ReplaceByIdNoMatch(list[1..], record);
    }
  }

  /** Applying the same update twice is applying it once. */
  lemma {:induction false} ReplaceByIdIdempotent(list: seq<Value>, record: Value)
    ensures ReplaceById(ReplaceById(list, record), record) == ReplaceById(list, record)
  {
    if list != [] {
      ReplaceByIdIdempotent(list[1..], record);
      assert ReplaceById(list, record)[1..] == ReplaceById(list[1..], record);
    }
  }

  /** Updating a concatenation updates each part. */
  lemma {:induction false} ReplaceByIdConcat(a: seq<Value>, b: seq<Value>, record: Value)
    ensures ReplaceById(a + b, record) == ReplaceById(a, record) + ReplaceById(b, record)
  {
    if a != [] {
      ReplaceByIdConcat(a[1..], b, record);
      assert (a + b)[1..] == a[1..] + b;
    } else {
      assert a + b == b;
    }
  }

  // ----- Delete: `list.filter(x => x.id !== id)` -----

  function RemoveById(list: seq<Value>, id: Value): (r: seq<Value>)
    ensures |r| <= |list|
  {
    if list == [] then []
    else (if HasId(list[0], id) then [] else [list[0]]) + RemoveById(list[1..], id)
  }

  /** Only elements of the old list whose id does not match survive the delete. */
  lemma {:induction false} RemoveByIdDrops(list: seq<Value>, id: Value, x: Value)
    requires x in RemoveById(list, id)
    ensures x in list && !HasId(x, id)
  {
    if x in RemoveById(list[1..], id) {
      RemoveByIdDrops(list[1..], id, x);
    }
  }

  /** Every element whose id does not match survives the delete. */
  lemma {:induction false} RemoveByIdKeeps(list: seq<Value>, id: Value, x: Value)
    requires x in list && !HasId(x, id)
    ensures x in RemoveById(list, id)
  {
    if list[0] != x {
      RemoveByIdKeeps(list[1..], id, x);
    }
  }

  /** Deleting from a concatenation deletes from each part: the survivors keep their
      relative order. */
  lemma {:induction false} RemoveByIdConcat(a: seq<Value>, b: seq<Value>, id: Value)
    ensures RemoveById(a + b, id) == RemoveById(a, id) + RemoveById(b, id)
  {
    if a != [] {
      var head := if HasId(a[0], id) then [] else [a[0]];
      assert (a + b)[0] == a[0] && (a + b)[1..] == a[1..] + b;
      calc {
        RemoveById(a + b, id);
        head + RemoveById(a[1..] + b, id);
        { RemoveByIdConcat(a[1..], b, id); }
        head + (RemoveById(a[1..], id) + RemoveById(b, id));
        (head + RemoveById(a[1..], id)) + RemoveById(b, id);
        RemoveById(a, id) + RemoveById(b, id);
      }
    } else {
      assert a + b == b;
    }
  }

  /** A delete whose id matches no element leaves the list as it was. */
  lemma {:induction false} RemoveByIdNoMatch(list: seq<Value>, id: Value)
    requires forall x :: x in list ==> !HasId(x, id)
    ensures RemoveById(list, id) == list
  {
    if list != [] {
      RemoveByIdNoMatch(list[1..], id);
    }
  }

  /** Deleting the same id twice is deleting it once. */
  lemma RemoveByIdIdempotent(list: seq<Value>, id: Value)
    ensures RemoveById(RemoveById(list, id), id) == RemoveById(list, id)
  {
    forall x | x in RemoveById(list, id)
      ensures !HasId(x, id)
    {
      RemoveByIdDrops(list, id, x);
    }
    RemoveByIdNoMatch(RemoveById(list, id), id);
  }

  // ----- How the operations fit together -----

  /** Create, then delete by the created record's id: when no element had that id before,
      the list is back to what it was. */
  lemma CreateThenDelete(list: seq<Value>, record: Value)
    requires Primitive(IdOf(record))
    requires forall x :: x in list ==> !HasId(x, IdOf(record))
    ensures RemoveById(list + [record], IdOf(record)) == list
  {
    RemoveByIdConcat(list, [record], IdOf(record));
    RemoveByIdNoMatch(list, IdOf(record));
    assert [record][1..] == [];
  }

  /** Update, then delete by the same id: the update leaves no trace. */
  lemma {:induction false} UpdateThenDelete(list: seq<Value>, record: Value)
    ensures RemoveById(ReplaceById(list, record), IdOf(record)) == RemoveById(list, IdOf(record))
  {
    if list != [] {
      UpdateThenDelete(list[1..], record);
      assert ReplaceById(list, record)[1..] == ReplaceById(list[1..], record);
    }
  }
}
