/** `validateRequiredFields`: the listed fields whose body value is falsy, in order. */
module Validators {
  import opened Wrappers
  import opened JsonValues

  /** `body[field]`, `undefined` when the key is absent. */
  function Lookup(body: map<string, Json>, field: string): Option<Json> {
    if field in body then Some(body[field]) else None
  }

  /** The specification: filter `fields`, keeping those whose value is falsy. */
  function MissingFields(body: map<string, Json>, fields: seq<string>): (r: seq<string>)
    ensures |r| <= |fields|
  {
    if fields == [] then []
    else
      var last := fields[|fields| - 1];
      MissingFields(body, fields[..|fields| - 1]) + (if Truthy(Lookup(body, last)) then [] else [last])
  }

  /** The loop of the source: push each falsy field onto `missing`; `body` is only read. */
  method ValidateRequiredFields(body: map<string, Json>, fields: seq<string>) returns (missing: seq<string>)
    ensures missing == MissingFields(body, fields)
  {
    missing := [];
    var i := 0;
    while i < |fields|
      invariant 0 <= i <= |fields|
      invariant missing == MissingFields(body, fields[..i])
    {
      var field := fields[i];
      assert fields[..i + 1][..i] == fields[..i];
      if !Truthy(Lookup(body, field)) {
        missing := missing + [field];
      }
      i := i + 1;
    }
    assert fields[..|fields|] == fields;
  }

  /** A field is reported exactly when it is listed and its value is falsy. */
  lemma {:induction false} MissingFieldsMembers(body: map<string, Json>, fields: seq<string>, f: string)
    ensures f in MissingFields(body, fields) <==> f in fields && !Truthy(Lookup(body, f))
  {
    if fields != [] {
      var init := fields[..|fields| - 1];
      assert fields == init + [fields[|fields| - 1]];
      MissingFieldsMembers(body, init, f);
    }
  }

  /** Order is kept: the result for a concatenation is the concatenation of the results. */
  lemma {:induction false} MissingFieldsAppend(body: map<string, Json>, a: seq<string>, b: seq<string>)
    ensures MissingFields(body, a + b) == MissingFields(body, a) + MissingFields(body, b)
  {
    if b != [] {
      var init := b[..|b| - 1];
      assert (a + b)[..|a + b| - 1] == a + init;
      MissingFieldsAppend(body, a, init);
    } else {
      assert a + b == a;
    }
  }

  /** A falsy field listed n times is reported n times; a truthy one never. */
  lemma {:induction false} MissingFieldsCount(body: map<string, Json>, fields: seq<string>, f: string)
    ensures multiset(MissingFields(body, fields))[f] == if Truthy(Lookup(body, f)) then 0 else multiset(fields)[f]
  {
    if fields != [] {
      var init := fields[..|fields| - 1];
      assert fields == init + [fields[|fields| - 1]];
      MissingFieldsCount(body, init, f);
    }
  }

  /** Against an empty body every listed field is reported, in order. */
  lemma {:induction false} MissingFieldsEmptyBody(fields: seq<string>)
    ensures MissingFields(map[], fields) == fields
  {
    if fields != [] {
      MissingFieldsEmptyBody(fields[..|fields| - 1]);
      assert fields == fields[..|fields| - 1] + [fields[|fields| - 1]];
    }
  }
}
