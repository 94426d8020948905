/** The query-string checks the two listing handlers share: the whitelist of
    parameter names and the `page`/`limit` pagination parameters. A query is
    the parsed `req.query` object given as its (key, value) pairs in the order
    `Object.keys` enumerates them; every value is a string. */
module QueryParams {
  import opened Outcomes
  import opened JsText
  import opened JsNumber
  import opened Http

  type Query = seq<(JsString, JsString)>

  /** Whether `key` is one of the query's own keys. */
  predicate HasKey(q: Query, key: JsString) {
    exists i :: 0 <= i < |q| && q[i].0 == key
  }

  /** Property access `req.query[key]`: `None` stands for `undefined`. */
  function Lookup(q: Query, key: JsString): (r: Option<JsString>)
    ensures r.Some? <==> HasKey(q, key)
    ensures r.Some? ==> (key, r.value) in q
    decreases |q|
  {
    if |q| == 0 then None
    else if q[0].0 == key then Some(q[0].1)
    else
      var r := Lookup(q[1..], key);
      assert HasKey(q, key) ==> HasKey(q[1..], key) by {
        if HasKey(q, key) {
          var i :| 0 <= i < |q| && q[i].0 == key;
          assert q[1..][i - 1] == q[i];
        }
      }
      r
  }

  /** A query value that is present and truthy: a non-empty string. */
  predicate Given(v: Option<JsString>) {
    v.Some? && |v.value| > 0
  }

  /** Keys other than `key` before position `n` do not affect the lookup. */
  lemma {:induction false} LookupPast(q: Query, key: JsString, n: nat)
    requires n <= |q|
    requires forall i :: 0 <= i < n ==> q[i].0 != key
    ensures Lookup(q, key) == Lookup(q[n..], key)
    decreases n
  {
    if n > 0 {
      LookupPast(q[1..], key, n - 1);
      assert q[1..][n - 1..] == q[n..];
    }
  }

  /** Looking up in a concatenation looks in the first part, then in the
      second. */
  lemma {:induction false} LookupOfConcat(a: Query, b: Query, key: JsString)
    ensures Lookup(a + b, key) == if Lookup(a, key).Some? then Lookup(a, key) else Lookup(b, key)
    decreases |a|
  {
    if |a| == 0 {
      assert a + b == b;
    } else {
      assert (a + b)[0] == a[0];
      assert (a + b)[1..] == a[1..] + b;
      LookupOfConcat(a[1..], b, key);
    }
  }

  /** The parameter names outside the whitelist, in query order, each as
      often as it occurs (once, since an object's keys are distinct). */
  function InvalidKeys(q: Query, allowed: set<JsString>): (r: seq<JsString>)
    ensures |r| <= |q|
    ensures forall key :: key in r <==> key !in allowed && HasKey(q, key)
    decreases |q|
  {
    if |q| == 0 then []
    else
      var rest := InvalidKeys(q[1..], allowed);
      assert forall key :: HasKey(q, key) <==> key == q[0].0 || HasKey(q[1..], key) by {
        forall key | HasKey(q, key) ensures key == q[0].0 || HasKey(q[1..], key) {
          var i :| 0 <= i < |q| && q[i].0 == key;
          if i > 0 { assert q[1..][i - 1] == q[i]; }
        }
        forall key | HasKey(q[1..], key) ensures HasKey(q, key) {
          var i :| 0 <= i < |q[1..]| && q[1..][i].0 == key;
          assert q[i + 1] == q[1..][i];
        }
      }
      (if q[0].0 in allowed then [] else [q[0].0]) + rest
  }

  /** Filtering keys distributes over concatenation of queries, so the
      offending names are listed in the query's key order (`Object.keys`,
      integer-like names first). */
  lemma {:induction false} InvalidKeysOfConcat(q1: Query, q2: Query, allowed: set<JsString>)
    ensures InvalidKeys(q1 + q2, allowed) == InvalidKeys(q1, allowed) + InvalidKeys(q2, allowed)
    decreases |q1|
  {
    if |q1| == 0 {
      assert q1 + q2 == q2;
    } else {
      assert (q1 + q2)[1..] == q1[1..] + q2;
      InvalidKeysOfConcat(q1[1..], q2, allowed);
    }
  }

  /** The first check of both listing handlers: any parameter name outside
      the whitelist is a 400 naming every such name, joined by ", ". */
  function CheckParams(q: Query, allowed: set<JsString>): (r: Result<(), HttpError>)
    ensures r.Ok? <==> forall i :: 0 <= i < |q| ==> q[i].0 in allowed
    ensures r.Err? ==> r.error == HttpError(400, Lit("Invalid query parameter(s): ") + Join(InvalidKeys(q, allowed), Lit(", ")))
  {
    var invalid := InvalidKeys(q, allowed);
    assert (exists i :: 0 <= i < |q| && q[i].0 !in allowed) ==> |invalid| > 0 by {
      if i :| 0 <= i < |q| && q[i].0 !in allowed {
        assert HasKey(q, q[i].0);
        assert q[i].0 in invalid;
      }
    }
    assert |invalid| > 0 ==> exists i :: 0 <= i < |q| && q[i].0 !in allowed by {
      if |invalid| > 0 {
        assert invalid[0] in invalid;
        assert HasKey(q, invalid[0]);
      }
    }
    if |invalid| > 0 then Err(HttpError(400, Lit("Invalid query parameter(s): ") + Join(invalid, Lit(", "))))
    else Ok(())
  }

  const PageKey := Lit("page")
  const LimitKey := Lit("limit")
  const DefaultLimit: nat := 10

  /** `parseInt(page)` with `page = 1` when absent, accepted when at least 1.
      An empty or non-numeric value is not a default: it is an error. */
  function ParsePage(raw: Option<JsString>): (r: Result<nat, HttpError>)
    ensures raw.None? ==> r == Ok(1)
    ensures raw.Some? ==> (r.Ok? <==> ParseInt(raw.value).Some? && ParseInt(raw.value).value >= 1)
    ensures r.Ok? ==> r.value >= 1 && (raw.Some? ==> r.value == ParseInt(raw.value).value)
    ensures r.Err? ==> r.error == HttpError(400, Lit("Page must be a positive number"))
  {
    var n := if raw.None? then Some(1) else ParseInt(raw.value);
    if n.None? || n.value < 1 then Err(HttpError(400, Lit("Page must be a positive number")))
    else Ok(n.value)
  }

  /** `parseInt(limit)` with `limit = 10` when absent, accepted when in
      [1, max]; `message` is the handler's error text for that bound. */
  function ParseLimit(raw: Option<JsString>, max: nat, message: JsString): (r: Result<nat, HttpError>)
    requires DefaultLimit <= max
    ensures raw.None? ==> r == Ok(DefaultLimit)
    ensures raw.Some? ==> (r.Ok? <==> ParseInt(raw.value).Some? && 1 <= ParseInt(raw.value).value <= max)
    ensures r.Ok? ==> 1 <= r.value <= max && (raw.Some? ==> r.value == ParseInt(raw.value).value)
    ensures r.Err? ==> r.error == HttpError(400, message)
  {
    var n := if raw.None? then Some(DefaultLimit as int) else ParseInt(raw.value);
    if n.None? || n.value < 1 || n.value > max then Err(HttpError(400, message))
    else Ok(n.value)
  }

  /** A page number written back in decimal is read as the same page. */
  lemma {:induction false} ParsePageOfDecimal(n: nat)
    requires n >= 1
    ensures ParsePage(Some(Decimal(n))) == Ok(n)
  {
    ParseIntOfDecimal(n);
  }

  /** A limit written back in decimal is read as the same limit. */
  lemma {:induction false} ParseLimitOfDecimal(n: nat, max: nat, message: JsString)
    requires DefaultLimit <= max && 1 <= n <= max
    ensures ParseLimit(Some(Decimal(n)), max, message) == Ok(n)
  {
    ParseIntOfDecimal(n);
  }
}
