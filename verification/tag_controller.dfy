/** The tag handlers: `createTag` validates a name and stores it unless a tag
    of the same name, ignoring case, already exists; `getTags` lists the
    tags a page at a time, optionally narrowed by a name search. The tag
    collection is modelled as the sequence of stored tags; the listing reads
    its matches from a `find` collaborator, as the post listing does. */
module TagController {
  import opened Outcomes
  import opened JsText
  import opened JsNumber
  import opened JsonValue
  import opened Http
  import opened QueryParams
  import opened Pagination

  // ---------------------------------------------------------------------
  // POST /api/tags
  // ---------------------------------------------------------------------

  /** A stored tag as the response shows it: `{ _id, name }`. */
  datatype Tag = Tag(id: JsString, name: JsString)

  /** The tag collection, in insertion order. */
  type TagStore = seq<Tag>

  const MinTagName: nat := 2
  const MaxTagName: nat := 30

  /** Whether a name may be stored: already trimmed and 2 to 30 code units. */
  predicate GoodName(n: JsString) {
    Trim(n) == n && MinTagName <= |n| <= MaxTagName
  }

  /** The checks on `req.body.name`, in order: falsy, then not a string,
      then the trimmed length. The accepted name is the trimmed one. */
  function ValidateTagName(name: Option<Json>): (r: Result<JsString, HttpError>)
    ensures name.None? || !Truthy(name.value) ==> r == Err(HttpError(400, Lit("Tag name is required")))
    ensures name.Some? && Truthy(name.value) && !name.value.JString? ==>
      r == Err(HttpError(400, Lit("Tag name must be a string")))
    ensures name.Some? && Truthy(name.value) && name.value.JString? && |Trim(name.value.s)| < MinTagName ==>
      r == Err(HttpError(400, Lit("Tag name must be at least 2 characters long")))
    ensures name.Some? && Truthy(name.value) && name.value.JString? && |Trim(name.value.s)| > MaxTagName ==>
      r == Err(HttpError(400, Lit("Tag name cannot exceed 30 characters")))
    ensures r.Ok? <==> name.Some? && name.value.JString? && MinTagName <= |Trim(name.value.s)| <= MaxTagName
    ensures r.Ok? ==> r.value == Trim(name.value.s) && GoodName(r.value)
    ensures r.Err? ==> r.error.status == 400
  {
    if name.None? || !Truthy(name.value) then Err(HttpError(400, Lit("Tag name is required")))
    else if !name.value.JString? then Err(HttpError(400, Lit("Tag name must be a string")))
    else
      var trimmed := Trim(name.value.s);
      if |trimmed| < MinTagName then Err(HttpError(400, Lit("Tag name must be at least 2 characters long")))
      else if |trimmed| > MaxTagName then Err(HttpError(400, Lit("Tag name cannot exceed 30 characters")))
      else
        TrimIdempotent(name.value.s);
        Ok(trimmed)
  }

  /** `Tag.findOne({ name: /^name$/i })`: the first stored tag whose name
      equals `name` ignoring case. */
  function FindByName(store: TagStore, name: JsString): (r: Option<nat>)
    ensures r.Some? ==> r.value < |store| && SameIgnoringCase(store[r.value].name, name)
    ensures r.Some? ==> forall i :: 0 <= i < r.value ==> !SameIgnoringCase(store[i].name, name)
    ensures r.None? <==> forall i :: 0 <= i < |store| ==> !SameIgnoringCase(store[i].name, name)
    decreases |store|
  {
    if |store| == 0 then None
    else if SameIgnoringCase(store[0].name, name) then Some(0)
    else
      match FindByName(store[1..], name)
      case None => None
      case Some(i) => Some(i + 1)
  }

  /** The 409 of the duplicate check; the text has two spaces after "with". */
  function DuplicateMessage(trimmed: JsString): JsString {
    Lit("Tag with  name ") + trimmed + Lit(" already exists")
  }

  /** The `catch` block of `createTag`: the database's duplicate-key error
      (code 11000) is a 409; anything else keeps its status or becomes a 500. */
  function CatchCreateTag(t: Thrown): (e: HttpError)
    ensures t.code == Some(11000) ==> e == HttpError(409, Lit("Tag with this name already exists"))
    ensures t.code != Some(11000) ==> e.message == t.message
    ensures t.code != Some(11000) ==> e.status == if t.status != 0 then t.status else 500
  {
    if t.code == Some(11000) then HttpError(409, Lit("Tag with this name already exists"))
    else ForwardOr(t, 500)
  }

  /** The store after a request and the response: the created tag, or the
      error the client sees. */
  datatype TagCreated = TagCreated(store: TagStore, response: Result<Tag, HttpError>)

  /** `createTag`. `freshId` is the `_id` the database assigns;
      `lookupFault` is what the duplicate lookup `findOne` throws, if
      anything, and `saveFault` what `save` throws (a duplicate key from a
      concurrent insert, a lost connection, ...). Both land in the same
      `catch`. Nothing is stored unless the response is the created tag. */
  function CreateTag(store: TagStore, name: Option<Json>, freshId: JsString,
                     lookupFault: Option<Thrown>, saveFault: Option<Thrown>): (r: TagCreated)
    ensures ValidateTagName(name).Err? ==> r == TagCreated(store, Err(ValidateTagName(name).error))
    ensures ValidateTagName(name).Ok? && lookupFault.Some? ==>
      r == TagCreated(store, Err(CatchCreateTag(lookupFault.value)))
    ensures ValidateTagName(name).Ok? && lookupFault.None? && FindByName(store, ValidateTagName(name).value).Some? ==>
      r == TagCreated(store, Err(HttpError(409, DuplicateMessage(ValidateTagName(name).value))))
    ensures r.response.Ok? <==>
      && ValidateTagName(name).Ok?
      && lookupFault.None?
      && saveFault.None?
      && FindByName(store, ValidateTagName(name).value).None?
    ensures r.response.Ok? ==>
      && r.response.value == Tag(freshId, ValidateTagName(name).value)
      && r.store == store + [r.response.value]
    ensures r.response.Err? ==> r.store == store
    ensures ValidateTagName(name).Ok? && lookupFault.None? && FindByName(store, ValidateTagName(name).value).None? && saveFault.Some? ==>
      r.response == Err(CatchCreateTag(saveFault.value))
  {
    match ValidateTagName(name)
    case Err(e) => TagCreated(store, Err(e))
    case Ok(trimmed) =>
      if lookupFault.Some? then TagCreated(store, Err(CatchCreateTag(lookupFault.value)))
      else if FindByName(store, trimmed).Some? then TagCreated(store, Err(HttpError(409, DuplicateMessage(trimmed))))
      else if saveFault.Some? then TagCreated(store, Err(CatchCreateTag(saveFault.value)))
      else
        var tag := Tag(freshId, trimmed);
        TagCreated(store + [tag], Ok(tag))
  }

  /** A failing duplicate lookup decides the response before any duplicate
      is seen: even with the name already stored, an error without a status
      is a 500 carrying its own message, not the 409. */
  lemma LookupFaultHidesDuplicate(store: TagStore, name: Option<Json>, freshId: JsString, t: Thrown, saveFault: Option<Thrown>)
    requires ValidateTagName(name).Ok? && FindByName(store, ValidateTagName(name).value).Some?
    requires t.code.None? && t.status == 0
    ensures CreateTag(store, name, freshId, Some(t), saveFault) == TagCreated(store, Err(HttpError(500, t.message)))
  {
  }

  /** What the tag collection keeps: distinct ids, names that are trimmed
      and 2 to 30 code units long, and no two names equal ignoring case. */
  predicate ValidStore(store: TagStore) {
    && (forall i :: 0 <= i < |store| ==> GoodName(store[i].name))
    && (forall i, j :: 0 <= i < j < |store| ==> store[i].id != store[j].id)
    && (forall i, j :: 0 <= i < j < |store| ==> !SameIgnoringCase(store[i].name, store[j].name))
  }

  /** Creating a tag keeps the collection valid, provided the database's id
      is new. */
  lemma CreateTagPreservesValidStore(store: TagStore, name: Option<Json>, freshId: JsString,
                                     lookupFault: Option<Thrown>, saveFault: Option<Thrown>)
    requires ValidStore(store)
    requires forall i :: 0 <= i < |store| ==> store[i].id != freshId
    ensures ValidStore(CreateTag(store, name, freshId, lookupFault, saveFault).store)
  {
    var r := CreateTag(store, name, freshId, lookupFault, saveFault);
    if r.response.Ok? {
      var s := r.store;
      var t := ValidateTagName(name).value;
      assert FindByName(store, t).None?;
      assert s[|store|] == Tag(freshId, t);
      forall i, j | 0 <= i < j < |s| ensures !SameIgnoringCase(s[i].name, s[j].name) {
        if j == |store| {
          assert !SameIgnoringCase(store[i].name, t);
        } else {
          assert s[i] == store[i] && s[j] == store[j];
        }
      }
      forall i, j | 0 <= i < j < |s| ensures s[i].id != s[j].id {
        if j < |store| {
          assert s[i] == store[i] && s[j] == store[j];
        }
      }
    }
  }

  /** Once a name is stored, every later request for the same name in any
      letter case, with any surrounding white space, is a 409 and stores
      nothing, whenever its duplicate lookup answers. */
  lemma {:induction false} CreatedNameBlocksCaseVariants(store: TagStore, name: Option<Json>, freshId: JsString,
                                                         lookupFault: Option<Thrown>, saveFault: Option<Thrown>,
                                                         again: Option<Json>, laterId: JsString, laterFault: Option<Thrown>)
    requires CreateTag(store, name, freshId, lookupFault, saveFault).response.Ok?
    requires ValidateTagName(again).Ok?
    requires SameIgnoringCase(ValidateTagName(again).value, ValidateTagName(name).value)
    ensures var s := CreateTag(store, name, freshId, lookupFault, saveFault).store;
            CreateTag(s, again, laterId, None, laterFault) ==
            TagCreated(s, Err(HttpError(409, DuplicateMessage(ValidateTagName(again).value))))
  {
    var s := CreateTag(store, name, freshId, lookupFault, saveFault).store;
    var a := ValidateTagName(again).value;
    assert s[|store|].name == ValidateTagName(name).value;
    assert SameIgnoringCase(s[|store|].name, a);
    assert FindByName(s, a).Some?;
  }

  /** "Go" is stored; "go" is then refused as a duplicate. */
  lemma GoThenLowerGoConflicts(store: TagStore, freshId: JsString, laterId: JsString)
    requires forall i :: 0 <= i < |store| ==> !SameIgnoringCase(store[i].name, Lit("Go"))
    ensures CreateTag(store, Some(JString(Lit("Go"))), freshId, None, None).response == Ok(Tag(freshId, Lit("Go")))
    ensures var s := store + [Tag(freshId, Lit("Go"))];
            CreateTag(s, Some(JString(Lit("go"))), laterId, None, None).response.Err?
  {
    TrimOfPlainName(Lit("Go"));
    TrimOfPlainName(Lit("go"));
    assert SameIgnoringCase(Lit("go"), Lit("Go"));
    CreatedNameBlocksCaseVariants(store, Some(JString(Lit("Go"))), freshId, None, None, Some(JString(Lit("go"))), laterId, None);
  }

  /** A name with no white space at either end is its own trim. */
  lemma TrimOfPlainName(n: JsString)
    requires |n| > 0 && !IsSpace(n[0]) && !IsSpace(n[|n| - 1])
    ensures Trim(n) == n
  {
    TrimOfSplit(n, 0, |n|);
  }

  // ---------------------------------------------------------------------
  // GET /api/tags
  // ---------------------------------------------------------------------

  const SearchKey := Lit("search")
  const TagParams: set<JsString> := {PageKey, LimitKey, SearchKey}
  const MaxTagLimit: nat := 100

  /** Everything `getTags` hands the database once the query is accepted:
      `search` stands for `name: { $regex: search, $options: 'i' }`. */
  datatype TagQuery = TagQuery(search: Option<JsString>, page: nat, limit: nat)

  /** The validation half of `getTags`: the whitelist, then `page`, then
      `limit`; a search term is kept only when non-empty. */
  function BuildTagQuery(q: Query): (r: Result<TagQuery, HttpError>)
    ensures CheckParams(q, TagParams).Err? ==> r == Err(CheckParams(q, TagParams).error)
    ensures CheckParams(q, TagParams).Ok? ==>
      var page := ParsePage(Lookup(q, PageKey));
      var limit := ParseLimit(Lookup(q, LimitKey), MaxTagLimit, Lit("Limit must be between 1 and 100"));
      && (page.Err? ==> r == Err(page.error))
      && (page.Ok? && limit.Err? ==> r == Err(limit.error))
      && (page.Ok? && limit.Ok? ==> r.Ok? && r.value.page == page.value && r.value.limit == limit.value)
    ensures r.Ok? ==> (r.value.search.Some? <==> Given(Lookup(q, SearchKey)))
    ensures r.Ok? && r.value.search.Some? ==> r.value.search == Lookup(q, SearchKey)
    ensures r.Ok? ==> TagQueryOk(r.value)
  {
    var _ :- CheckParams(q, TagParams);
    var page :- ParsePage(Lookup(q, PageKey));
    var limit :- ParseLimit(Lookup(q, LimitKey), MaxTagLimit, Lit("Limit must be between 1 and 100"));
    var search := Lookup(q, SearchKey);
    Ok(TagQuery(if Given(search) then search else None, page, limit))
  }

  /** What an accepted tag query looks like. */
  predicate TagQueryOk(tq: TagQuery) {
    && tq.page >= 1
    && 1 <= tq.limit <= MaxTagLimit
    && (tq.search.Some? ==> |tq.search.value| > 0)
  }

  /** The three parameter names are pairwise different. */
  lemma TagParamNamesDistinct()
    ensures PageKey != LimitKey && PageKey != SearchKey && LimitKey != SearchKey
  {
    assert |PageKey| == 4 && |LimitKey| == 5 && |SearchKey| == 6;
  }

  /** The query string a client would send for an accepted tag query. */
  function RenderTagQuery(tq: TagQuery): Query {
    [(PageKey, Decimal(tq.page)), (LimitKey, Decimal(tq.limit))]
    + (if tq.search.Some? then [(SearchKey, tq.search.value)] else [])
  }

  lemma RenderedTagLookups(tq: TagQuery)
    ensures var q := RenderTagQuery(tq);
      && (forall i :: 0 <= i < |q| ==> q[i].0 in TagParams)
      && Lookup(q, PageKey) == Some(Decimal(tq.page))
      && Lookup(q, LimitKey) == Some(Decimal(tq.limit))
      && Lookup(q, SearchKey) == tq.search
  {
    TagParamNamesDistinct();
    var q := RenderTagQuery(tq);
    assert q[2..] == (if tq.search.Some? then [(SearchKey, tq.search.value)] else []);
    LookupPast(q, LimitKey, 1);
    LookupPast(q, SearchKey, 2);
  }

  /** Every accepted tag query is reproduced by the query string that spells
      it out. */
  lemma {:induction false} BuildTagQueryOfRendered(tq: TagQuery)
    requires TagQueryOk(tq)
    ensures BuildTagQuery(RenderTagQuery(tq)) == Ok(tq)
  {
    RenderedTagLookups(tq);
    ParsePageOfDecimal(tq.page);
    ParseLimitOfDecimal(tq.limit, MaxTagLimit, Lit("Limit must be between 1 and 100"));
  }

  /** An empty query lists the first ten tags, unfiltered. */
  lemma TagQueryDefaults()
    ensures BuildTagQuery([]) == Ok(TagQuery(None, 1, DefaultLimit))
  {
  }

  /** A limit above 100 is refused, although the post listing would accept
      any limit up to 50 and this one accepts 51 to 100. */
  lemma {:induction false} TagLimitBound(n: nat)
    requires n >= 1
    ensures BuildTagQuery([(LimitKey, Decimal(n))]).Ok? <==> n <= MaxTagLimit
  {
    TagParamNamesDistinct();
    ParseIntOfDecimal(n);
  }

  /** The database half of `getTags`: one page of the matches and its
      pagination, or what the database threw as a 500 unless it carries a
      status. */
  function ListTags(tq: TagQuery, find: Option<JsString> -> Result<seq<Tag>, Thrown>): (r: Result<Listing<Tag>, HttpError>)
    requires tq.page >= 1 && tq.limit >= 1
    ensures r.Ok? <==> find(tq.search).Ok?
    ensures r.Ok? ==>
      && r.value.data == Window(find(tq.search).value, (tq.page - 1) * tq.limit, tq.limit)
      && r.value.pagination == PageInfo(|find(tq.search).value|, tq.page, tq.limit, CeilDiv(|find(tq.search).value|, tq.limit))
    ensures r.Err? ==> r.error == ForwardOr(find(tq.search).error, 500)
  {
    match find(tq.search)
    case Err(t) => Err(ForwardOr(t, 500))
    case Ok(matches) => Ok(Paginate(matches, tq.page, tq.limit))
  }

  /** `getTags`: validate, then read. A rejected query never reaches the
      database. */
  function GetTags(q: Query, find: Option<JsString> -> Result<seq<Tag>, Thrown>): (r: Result<Listing<Tag>, HttpError>)
    ensures BuildTagQuery(q).Err? ==> r == Err(BuildTagQuery(q).error)
    ensures BuildTagQuery(q).Ok? ==> r == ListTags(BuildTagQuery(q).value, find)
  {
    var built := BuildTagQuery(q);
    if built.Err? then Err(built.error)
    else ListTags(built.value, find)
  }

  /** Without a search, and when the database lists the collection in
      insertion order (`getTags` asks for no order, so this is an assumption
      about the database and not a promise of the handler), a tag just
      created is the last entry of the last page. */
  lemma {:induction false} CreatedTagIsListed(store: TagStore, name: Option<Json>, freshId: JsString, limit: nat,
                                              find: Option<JsString> -> Result<seq<Tag>, Thrown>)
    requires CreateTag(store, name, freshId, None, None).response.Ok?
    requires 1 <= limit <= MaxTagLimit
    requires find(None) == Ok(CreateTag(store, name, freshId, None, None).store)
    ensures var s := CreateTag(store, name, freshId, None, None).store;
            var r := ListTags(TagQuery(None, CeilDiv(|s|, limit), limit), find);
            r.Ok? && |r.value.data| > 0 && r.value.data[|r.value.data| - 1] == Tag(freshId, ValidateTagName(name).value)
  {
    var s := CreateTag(store, name, freshId, None, None).store;
    LastPageEndsWithLastMatch(s, limit);
  }

  /** Whatever order the database lists tags in, a tag it lists without a
      search is on one of the pages 1 to `pages`. */
  lemma {:induction false} ListedTagIsOnSomePage(t: Tag, limit: nat, find: Option<JsString> -> Result<seq<Tag>, Thrown>)
    requires 1 <= limit <= MaxTagLimit
    requires find(None).Ok? && t in find(None).value
    ensures exists p :: 1 <= p <= CeilDiv(|find(None).value|, limit) && t in ListTags(TagQuery(None, p, limit), find).value.data
  {
    var matches := find(None).value;
    var k :| 0 <= k < |matches| && matches[k] == t;
    var p := k / limit + 1;
    var skip := (p - 1) * limit;
    assert skip <= k < skip + limit by {
      assert k == (k / limit) * limit + k % limit;
    }
    var r := Paginate(matches, p, limit);
    assert |r.data| > k - skip;
    assert r.data[k - skip] == t;
    assert p <= CeilDiv(|matches|, limit) by {
      if p > r.pagination.pages {
        MulMonotone(r.pagination.pages, p - 1, limit);
      }
    }
    assert ListTags(TagQuery(None, p, limit), find).value.data == r.data;
  }

  /** With a database that lists every stored tag when there is no search, a
      tag just created can be found on one of the reported pages. */
  lemma CreatedTagIsOnSomePage(store: TagStore, name: Option<Json>, freshId: JsString, limit: nat,
                               find: Option<JsString> -> Result<seq<Tag>, Thrown>)
    requires CreateTag(store, name, freshId, None, None).response.Ok?
    requires 1 <= limit <= MaxTagLimit
    requires find(None).Ok? && forall t :: t in CreateTag(store, name, freshId, None, None).store ==> t in find(None).value
    ensures var t := Tag(freshId, ValidateTagName(name).value);
            exists p :: 1 <= p <= CeilDiv(|find(None).value|, limit) && t in ListTags(TagQuery(None, p, limit), find).value.data
  {
    var s := CreateTag(store, name, freshId, None, None).store;
    assert s[|s| - 1] in s;
    ListedTagIsOnSomePage(Tag(freshId, ValidateTagName(name).value), limit, find);
  }
}
