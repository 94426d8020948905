/** The post handlers: `getPosts` turns a query string into a filter, a sort
    order and a page, and `createPost` validates a submitted post before it is
    stored. The database is a collaborator passed in as a function: `find`
    returns every post matching a filter in sort order (or what it threw),
    `save` stores a post and returns its populated form (or what it threw). */
module PostController {
  import opened Outcomes
  import opened JsText
  import opened JsNumber
  import opened JsonValue
  import opened Http
  import opened QueryParams
  import opened Pagination
  import opened Sequences

  // ---------------------------------------------------------------------
  // GET /api/posts
  // ---------------------------------------------------------------------

  const SortKey := Lit("sort")
  const KeywordKey := Lit("keyword")
  const TagKey := Lit("tag")

  const PostParams: set<JsString> := {SortKey, PageKey, LimitKey, KeywordKey, TagKey}

  const CreatedAt := Lit("createdAt")
  const AllowedSortFields: seq<JsString> := [CreatedAt, Lit("title"), Lit("desc")]

  const MaxPostLimit: nat := 50

  /** The `filters` object. `keyword` stands for
      `$or: [{ title: /keyword/i }, { desc: /keyword/i }]`, `tag` for
      `tags: tag`; an absent member is absent from the object. */
  datatype PostFilter = PostFilter(keyword: Option<JsString>, tag: Option<JsString>)

  /** The `sortOptions` object `{ [field]: direction }`: one field, and a
      direction where -1 means descending. */
  datatype SortSpec = SortSpec(field: JsString, direction: int)

  /** Everything `getPosts` hands the database once the query is accepted. */
  datatype PostQuery = PostQuery(filter: PostFilter, sort: SortSpec, page: nat, limit: nat)

  /** The filter keeps a condition only for a truthy parameter. */
  function FilterOf(keyword: Option<JsString>, tag: Option<JsString>): (f: PostFilter)
    ensures f.keyword.Some? <==> Given(keyword)
    ensures f.tag.Some? <==> Given(tag)
    ensures f.keyword.Some? ==> f.keyword == keyword
    ensures f.tag.Some? ==> f.tag == tag
    ensures !Given(keyword) && !Given(tag) ==> f == PostFilter(None, None)
  {
    PostFilter(if Given(keyword) then keyword else None, if Given(tag) then tag else None)
  }

  function SortMessage(): JsString {
    Lit("Invalid sort parameter. Allowed values: ") + Join(AllowedSortFields, Lit(", "))
  }

  /** The allowed fields joined as the handler joins them. */
  lemma AllowedSortFieldsJoined()
    ensures Join(AllowedSortFields, Lit(", ")) == Lit("createdAt") + Lit(", ") + Lit("title") + Lit(", ") + Lit("desc")
  {
    assert Join(AllowedSortFields[2..], Lit(", ")) == Lit("desc");
    assert Join(AllowedSortFields[1..], Lit(", ")) == Lit("title") + Lit(", ") + Lit("desc");
  }

  /** The sort error lists the three fields, comma-separated, in order. */
  lemma SortMessageText()
    ensures SortMessage() == Lit("Invalid sort parameter. Allowed values: createdAt, title, desc")
  {
    var head := "Invalid sort parameter. Allowed values: ";
    AllowedSortFieldsJoined();
    LitOfFieldList(head);
    var full := head + "createdAt" + ", " + "title" + ", " + "desc";
    assert full == "Invalid sort parameter. Allowed values: createdAt, title, desc";
    assert SortMessage() == Lit(head) + (Lit("createdAt") + Lit(", ") + Lit("title") + Lit(", ") + Lit("desc"));
  }

  lemma LitOfFieldList(head: string)
    ensures Lit(head + "createdAt" + ", " + "title" + ", " + "desc")
         == Lit(head) + (Lit("createdAt") + Lit(", ") + Lit("title") + Lit(", ") + Lit("desc"))
  {
    LitConcat(head, "createdAt");
    LitConcat(head + "createdAt", ", ");
    LitConcat(head + "createdAt" + ", ", "title");
    LitConcat(head + "createdAt" + ", " + "title", ", ");
    LitConcat(head + "createdAt" + ", " + "title" + ", ", "desc");
  }

  /** The sort check: `sort` defaults to "createdAt"; an empty value also
      sorts by creation date; any other value must be an allowed field. The
      result orders by exactly one field, descending. */
  function SortOf(raw: Option<JsString>): (r: Result<SortSpec, HttpError>)
    ensures r.Ok? ==> r.value.field in AllowedSortFields && r.value.direction == -1
    ensures r.Ok? ==> (r.value.field == CreatedAt <==> !Given(raw) || raw.value == CreatedAt)
    ensures r.Ok? && Given(raw) ==> r.value.field == raw.value
    ensures r.Ok? <==> !Given(raw) || raw.value in AllowedSortFields
    ensures r.Err? ==> r.error == HttpError(400, SortMessage())
  {
    var sort := if raw.None? then CreatedAt else raw.value;
    if |sort| > 0 then
      if sort in AllowedSortFields then Ok(SortSpec(sort, -1))
      else Err(HttpError(400, SortMessage()))
    else Ok(SortSpec(CreatedAt, -1))
  }

  /** `new RegExp(pattern, 'i')`: `None` when the pattern compiles,
      otherwise the message of the `SyntaxError` it throws. The regular
      expression grammar itself is left to this parameter. */
  type PatternCheck = JsString -> Option<JsString>

  /** The keyword filter is compiled in the handler itself, before the sort
      check and before any database call. A pattern that does not compile
      throws an error without a status, which the `catch` turns into a 500
      carrying the syntax error's message. */
  function CompileKeyword(keyword: Option<JsString>, badPattern: PatternCheck): (r: Result<(), HttpError>)
    ensures r.Err? <==> Given(keyword) && badPattern(keyword.value).Some?
    ensures r.Err? ==> r.error == HttpError(500, badPattern(keyword.value).value)
  {
    if Given(keyword) && badPattern(keyword.value).Some? then
      Err(ForwardOr(Thrown(0, None, badPattern(keyword.value).value), 500))
    else Ok(())
  }

  /** The validation half of `getPosts`, in the handler's order: the
      parameter whitelist first, then `page`, then `limit`, then the keyword
      pattern, then `sort`. */
  function BuildPostQuery(q: Query, badPattern: PatternCheck): (r: Result<PostQuery, HttpError>)
    ensures CheckParams(q, PostParams).Err? ==> r == Err(CheckParams(q, PostParams).error)
    ensures CheckParams(q, PostParams).Ok? ==>
      var page := ParsePage(Lookup(q, PageKey));
      var limit := ParseLimit(Lookup(q, LimitKey), MaxPostLimit, Lit("Limit must be between 1 and 50"));
      var pattern := CompileKeyword(Lookup(q, KeywordKey), badPattern);
      var sort := SortOf(Lookup(q, SortKey));
      && (page.Err? ==> r == Err(page.error))
      && (page.Ok? && limit.Err? ==> r == Err(limit.error))
      && (page.Ok? && limit.Ok? && pattern.Err? ==> r == Err(pattern.error))
      && (page.Ok? && limit.Ok? && pattern.Ok? && sort.Err? ==> r == Err(sort.error))
      && (page.Ok? && limit.Ok? && pattern.Ok? && sort.Ok? ==>
            r == Ok(PostQuery(FilterOf(Lookup(q, KeywordKey), Lookup(q, TagKey)), sort.value, page.value, limit.value)))
    ensures r.Ok? ==> WellFormed(r.value)
  {
    var _ :- CheckParams(q, PostParams);
    var page :- ParsePage(Lookup(q, PageKey));
    var limit :- ParseLimit(Lookup(q, LimitKey), MaxPostLimit, Lit("Limit must be between 1 and 50"));
    var _ :- CompileKeyword(Lookup(q, KeywordKey), badPattern);
    var filter := FilterOf(Lookup(q, KeywordKey), Lookup(q, TagKey));
    var sort :- SortOf(Lookup(q, SortKey));
    Ok(PostQuery(filter, sort, page, limit))
  }

  /** What an accepted query looks like: a page from 1, a limit in [1, 50],
      one allowed sort field descending, and only non-empty filter values. */
  predicate WellFormed(pq: PostQuery) {
    && pq.page >= 1
    && 1 <= pq.limit <= MaxPostLimit
    && pq.sort.field in AllowedSortFields && pq.sort.direction == -1
    && (pq.filter.keyword.Some? ==> |pq.filter.keyword.value| > 0)
    && (pq.filter.tag.Some? ==> |pq.filter.tag.value| > 0)
  }

  /** Absent `sort`, `page` and `limit` mean newest first, page 1, ten per
      page. */
  lemma {:induction false} PostQueryDefaults(q: Query, badPattern: PatternCheck)
    requires forall i :: 0 <= i < |q| ==> q[i].0 == KeywordKey || q[i].0 == TagKey
    requires CompileKeyword(Lookup(q, KeywordKey), badPattern).Ok?
    ensures BuildPostQuery(q, badPattern) ==
            Ok(PostQuery(FilterOf(Lookup(q, KeywordKey), Lookup(q, TagKey)), SortSpec(CreatedAt, -1), 1, DefaultLimit))
  {
    PostParamNamesDistinct();
    assert !HasKey(q, SortKey) && !HasKey(q, PageKey) && !HasKey(q, LimitKey);
  }

  /** A keyword that is not a valid pattern fails before the sort check:
      with a bad sort as well, the client sees the pattern's 500, not the
      sort's 400. */
  lemma KeywordFaultBeforeSort(keyword: JsString, sort: JsString, badPattern: PatternCheck)
    requires |keyword| > 0 && badPattern(keyword).Some?
    requires sort !in AllowedSortFields
    ensures BuildPostQuery([(KeywordKey, keyword), (SortKey, sort)], badPattern)
            == Err(HttpError(500, badPattern(keyword).value))
  {
    PostParamNamesDistinct();
    var q := [(KeywordKey, keyword), (SortKey, sort)];
    assert CheckParams(q, PostParams).Ok?;
    assert !HasKey(q, PageKey) && !HasKey(q, LimitKey);
    assert Lookup(q, KeywordKey) == Some(keyword);
  }

  /** The five parameter names are pairwise different. */
  lemma PostParamNamesDistinct()
    ensures SortKey != PageKey && SortKey != LimitKey && SortKey != KeywordKey && SortKey != TagKey
    ensures PageKey != LimitKey && PageKey != KeywordKey && PageKey != TagKey
    ensures LimitKey != KeywordKey && LimitKey != TagKey
    ensures KeywordKey != TagKey
  {
    assert SortKey[0] != PageKey[0];
    assert |PageKey| == 4 && |LimitKey| == 5 && |KeywordKey| == 7 && |TagKey| == 3;
  }

  /** The query string a client would send for an accepted query. */
  function RenderPostQuery(pq: PostQuery): Query {
    RenderHead(pq) + RenderFilter(pq.filter)
  }

  /** The filter's parameters, each only when present. */
  function RenderFilter(f: PostFilter): Query {
    (if f.keyword.Some? then [(KeywordKey, f.keyword.value)] else [])
    + (if f.tag.Some? then [(TagKey, f.tag.value)] else [])
  }

  lemma RenderedFilterLookups(f: PostFilter)
    ensures var q := RenderFilter(f);
      && (forall i :: 0 <= i < |q| ==> q[i].0 == KeywordKey || q[i].0 == TagKey)
      && Lookup(q, KeywordKey) == f.keyword
      && Lookup(q, TagKey) == f.tag
  {
    PostParamNamesDistinct();
  }

  /** The fixed part of the rendered query: sort, page and limit. */
  function RenderHead(pq: PostQuery): Query {
    [(SortKey, pq.sort.field), (PageKey, Decimal(pq.page)), (LimitKey, Decimal(pq.limit))]
  }

  lemma RenderedHeadLookups(pq: PostQuery)
    ensures var h := RenderHead(pq);
      && Lookup(h, SortKey) == Some(pq.sort.field)
      && Lookup(h, PageKey) == Some(Decimal(pq.page))
      && Lookup(h, LimitKey) == Some(Decimal(pq.limit))
      && Lookup(h, KeywordKey) == None
      && Lookup(h, TagKey) == None
  {
    PostParamNamesDistinct();
    var h := RenderHead(pq);
    assert !HasKey(h, KeywordKey);
    assert !HasKey(h, TagKey);
    LookupPast(h, LimitKey, 2);
  }

  /** Reading the rendered query back finds each value where it was put. */
  lemma RenderedLookups(pq: PostQuery)
    ensures var q := RenderPostQuery(pq);
      && Lookup(q, SortKey) == Some(pq.sort.field)
      && Lookup(q, PageKey) == Some(Decimal(pq.page))
      && Lookup(q, LimitKey) == Some(Decimal(pq.limit))
      && Lookup(q, KeywordKey) == pq.filter.keyword
      && Lookup(q, TagKey) == pq.filter.tag
  {
    RenderedHeadLookups(pq);
    RenderedFilterLookups(pq.filter);
    var h := RenderHead(pq);
    var tail := RenderFilter(pq.filter);
    LookupOfConcat(h, tail, SortKey);
    LookupOfConcat(h, tail, PageKey);
    LookupOfConcat(h, tail, LimitKey);
    LookupOfConcat(h, tail, KeywordKey);
    LookupOfConcat(h, tail, TagKey);
  }

  /** The rendered query uses only whitelisted names. */
  lemma RenderedKeysAllowed(pq: PostQuery)
    ensures var q := RenderPostQuery(pq);
      forall i :: 0 <= i < |q| ==> q[i].0 in PostParams
  {
    RenderedFilterLookups(pq.filter);
  }

  /** Every accepted query is reproduced exactly by the query string that
      spells it out: the builder loses nothing and adds nothing. */
  lemma {:induction false} BuildPostQueryOfRendered(pq: PostQuery, badPattern: PatternCheck)
    requires WellFormed(pq)
    requires pq.filter.keyword.Some? ==> badPattern(pq.filter.keyword.value).None?
    ensures BuildPostQuery(RenderPostQuery(pq), badPattern) == Ok(pq)
  {
    var q := RenderPostQuery(pq);
    RenderedLookups(pq);
    RenderedKeysAllowed(pq);
    assert CheckParams(q, PostParams).Ok?;
    ParsePageOfDecimal(pq.page);
    assert ParsePage(Lookup(q, PageKey)) == Ok(pq.page);
    ParseLimitOfDecimal(pq.limit, MaxPostLimit, Lit("Limit must be between 1 and 50"));
    assert ParseLimit(Lookup(q, LimitKey), MaxPostLimit, Lit("Limit must be between 1 and 50")) == Ok(pq.limit);
    assert CompileKeyword(Lookup(q, KeywordKey), badPattern).Ok?;
    assert |pq.sort.field| > 0;
    assert SortOf(Lookup(q, SortKey)) == Ok(pq.sort);
    assert FilterOf(Lookup(q, KeywordKey), Lookup(q, TagKey)) == pq.filter;
  }

  /** `getPosts`: validate, then read the matching posts in sort order and
      return one page of them. A rejected query never reaches the database;
      an error the database throws becomes a 500 unless it carries a status. */
  function GetPosts<D>(q: Query, badPattern: PatternCheck, find: (PostFilter, SortSpec) -> Result<seq<D>, Thrown>): (r: Result<Listing<D>, HttpError>)
    ensures BuildPostQuery(q, badPattern).Err? ==> r == Err(BuildPostQuery(q, badPattern).error)
    ensures BuildPostQuery(q, badPattern).Ok? ==> r == ListPosts(BuildPostQuery(q, badPattern).value, find)
  {
    var built := BuildPostQuery(q, badPattern);
    if built.Err? then Err(built.error)
    else ListPosts(built.value, find)
  }

  /** The database half of `getPosts` for an accepted query. */
  function ListPosts<D>(pq: PostQuery, find: (PostFilter, SortSpec) -> Result<seq<D>, Thrown>): (r: Result<Listing<D>, HttpError>)
    requires pq.page >= 1 && pq.limit >= 1
    ensures r.Ok? <==> find(pq.filter, pq.sort).Ok?
    ensures r.Ok? ==>
      && r.value.data == Window(find(pq.filter, pq.sort).value, (pq.page - 1) * pq.limit, pq.limit)
      && r.value.pagination == PageInfo(|find(pq.filter, pq.sort).value|, pq.page, pq.limit, CeilDiv(|find(pq.filter, pq.sort).value|, pq.limit))
    ensures r.Err? ==> r.error == ForwardOr(find(pq.filter, pq.sort).error, 500)
  {
    match find(pq.filter, pq.sort)
    case Err(t) => Err(ForwardOr(t, 500))
    case Ok(matches) => Ok(Paginate(matches, pq.page, pq.limit))
  }

  /** With no matching post the listing is empty and reports zero pages. */
  lemma {:induction false} GetPostsWithNoMatches<D>(q: Query, badPattern: PatternCheck,
                                                     find: (PostFilter, SortSpec) -> Result<seq<D>, Thrown>)
    requires BuildPostQuery(q, badPattern).Ok?
    requires find(BuildPostQuery(q, badPattern).value.filter, BuildPostQuery(q, badPattern).value.sort) == Ok([])
    ensures GetPosts(q, badPattern, find).Ok?
    ensures GetPosts(q, badPattern, find).value.data == []
    ensures GetPosts(q, badPattern, find).value.pagination.pages == 0
  {
    var pq := BuildPostQuery(q, badPattern).value;
    assert find(pq.filter, pq.sort) == Ok([]);
  }

  // ---------------------------------------------------------------------
  // POST /api/posts
  // ---------------------------------------------------------------------

  /** The body fields `createPost` reads; `None` is `undefined`. */
  datatype PostBody = PostBody(title: Option<JsString>, desc: Option<JsString>, tags: Option<Json>)

  /** The document handed to the database: trimmed title and description,
      tag ids, and the uploaded image's location or `null`. */
  datatype PostRecord = PostRecord(title: JsString, desc: JsString, tags: seq<JsString>, image: Option<JsString>)

  const MaxTags: nat := 10

  /** `!field || !field.trim()`. */
  predicate Blank(v: Option<JsString>) {
    v.None? || |Trim(v.value)| == 0
  }

  /** Presence first (title, then description), then trimmed lengths (title
      in [3, 100], then description in [10, 5000]). */
  function CheckFields(body: PostBody): (r: Result<(JsString, JsString), HttpError>)
    ensures r.Ok? ==> !Blank(body.title) && !Blank(body.desc)
    ensures r.Ok? ==> r.value == (Trim(body.title.value), Trim(body.desc.value))
    ensures r.Ok? ==> 3 <= |r.value.0| <= 100 && 10 <= |r.value.1| <= 5000
    ensures r.Ok? <==>
      && !Blank(body.title) && !Blank(body.desc)
      && 3 <= |Trim(body.title.value)| <= 100
      && 10 <= |Trim(body.desc.value)| <= 5000
    ensures Blank(body.title) ==> r == Err(HttpError(400, Lit("Title is required")))
    ensures !Blank(body.title) && Blank(body.desc) ==> r == Err(HttpError(400, Lit("Description is required")))
    ensures !Blank(body.title) && !Blank(body.desc) && !(3 <= |Trim(body.title.value)| <= 100) ==>
      r == Err(HttpError(400, Lit("Title must be between 3 and 100 characters")))
    ensures !Blank(body.title) && !Blank(body.desc) && 3 <= |Trim(body.title.value)| <= 100
            && !(10 <= |Trim(body.desc.value)| <= 5000) ==>
      r == Err(HttpError(400, Lit("Description must be between 10 and 5000 characters")))
    ensures r.Err? ==> r.error.status == 400
  {
    if Blank(body.title) then Err(HttpError(400, Lit("Title is required")))
    else if Blank(body.desc) then Err(HttpError(400, Lit("Description is required")))
    else
      var title := Trim(body.title.value);
      var desc := Trim(body.desc.value);
      if |title| < 3 || |title| > 100 then Err(HttpError(400, Lit("Title must be between 3 and 100 characters")))
      else if |desc| < 10 || |desc| > 5000 then Err(HttpError(400, Lit("Description must be between 10 and 5000 characters")))
      else Ok((title, desc))
  }

  /** Why the tags block failed; only the server log sees which. */
  datatype TagsFault = NotJson | NotArray | TooManyTags | UnknownTagId

  /** A tags entry that names a stored tag. */
  predicate IsKnownId(v: Json, existing: set<JsString>) {
    v.JString? && v.s in existing
  }

  /** `validTags.length`: how many of the (distinct) entries the database
      finds among the stored tags. */
  function CountKnown(ids: seq<Json>, existing: set<JsString>): (n: nat)
    ensures n <= |ids|
    decreases |ids|
  {
    if |ids| == 0 then 0
    else CountKnown(ids[..|ids| - 1], existing) + (if IsKnownId(ids[|ids| - 1], existing) then 1 else 0)
  }

  /** The count comparison of the handler is exactly "every entry is known". */
  lemma {:induction false} CountKnownIsAll(ids: seq<Json>, existing: set<JsString>)
    ensures CountKnown(ids, existing) == |ids| <==> forall i :: 0 <= i < |ids| ==> IsKnownId(ids[i], existing)
    decreases |ids|
  {
    if |ids| > 0 {
      var front := ids[..|ids| - 1];
      CountKnownIsAll(front, existing);
      assert forall i :: 0 <= i < |front| ==> front[i] == ids[i];
    }
  }

  function IdStrings(ids: seq<Json>): seq<JsString>
    requires forall i :: 0 <= i < |ids| ==> ids[i].JString?
  {
    seq(|ids|, i requires 0 <= i < |ids| => ids[i].s)
  }

  /** The inside of the tags `try` block: parse a string as JSON, require an
      array of at most ten entries, drop repeated entries, and require every
      remaining entry to be a stored tag id. */
  function ResolveTags(tags: Json, existing: set<JsString>, parseJson: JsString -> Option<Json>): (r: Result<seq<JsString>, TagsFault>)
    ensures r.Ok? ==> |r.value| <= MaxTags && Distinct(r.value)
    ensures r.Ok? ==> forall i :: 0 <= i < |r.value| ==> r.value[i] in existing
    ensures tags.JString? && parseJson(tags.s).None? ==> r == Err(NotJson)
    ensures tags.JString? && parseJson(tags.s).Some? && !parseJson(tags.s).value.JArray? ==> r == Err(NotArray)
    ensures !tags.JString? && !tags.JArray? ==> r == Err(NotArray)
    ensures tags.JArray? && |tags.items| > MaxTags ==> r == Err(TooManyTags)
  {
    var parsed :-
      if tags.JString? then
        (match parseJson(tags.s) case None => Err(NotJson) case Some(v) => Ok(v))
      else Ok(tags);
    if !parsed.JArray? then Err(NotArray)
    else if |parsed.items| > MaxTags then Err(TooManyTags)
    else
      var unique := Dedupe(parsed.items);
      if CountKnown(unique, existing) != |unique| then Err(UnknownTagId)
      else
        CountKnownIsAll(unique, existing);
        Ok(IdStrings(unique))
  }

  /** The tags block of `createPost`: a missing or falsy `tags` is `[]`, and
      every failure inside the block, whatever it was, surfaces as the one
      400 "Invalid tags format". */
  function ParseTags(raw: Option<Json>, existing: set<JsString>, parseJson: JsString -> Option<Json>): (r: Result<seq<JsString>, HttpError>)
    ensures r.Err? ==> r.error == HttpError(400, Lit("Invalid tags format"))
    ensures r.Ok? ==> |r.value| <= MaxTags && Distinct(r.value)
    ensures r.Ok? ==> forall i :: 0 <= i < |r.value| ==> r.value[i] in existing
  {
    var tags := if raw.Some? && Truthy(raw.value) then raw.value else JArray([]);
    match ResolveTags(tags, existing, parseJson)
    case Ok(ids) => Ok(ids)
    case Err(_) => Err(HttpError(400, Lit("Invalid tags format")))
  }

  /** No tags, or falsy tags, store an empty tag list. */
  lemma NoTagsMeansEmpty(raw: Option<Json>, existing: set<JsString>, parseJson: JsString -> Option<Json>)
    requires raw.None? || !Truthy(raw.value)
    ensures ParseTags(raw, existing, parseJson) == Ok([])
  {
    assert Dedupe<Json>([]) == [];
  }

  /** Two lists with the same entries agree on whether every entry is
      known; in particular dropping repetitions does not change it. */
  lemma AllKnownOfSameEntries(items: seq<Json>, unique: seq<Json>, existing: set<JsString>)
    requires forall i :: 0 <= i < |items| ==> items[i] in unique
    requires forall j :: 0 <= j < |unique| ==> unique[j] in items
    ensures (forall j :: 0 <= j < |unique| ==> IsKnownId(unique[j], existing))
        <==> (forall i :: 0 <= i < |items| ==> IsKnownId(items[i], existing))
  {
    if forall j :: 0 <= j < |unique| ==> IsKnownId(unique[j], existing) {
      forall i | 0 <= i < |items| ensures IsKnownId(items[i], existing) {
        assert items[i] in unique;
        var j :| 0 <= j < |unique| && unique[j] == items[i];
      }
    }
    if forall i :: 0 <= i < |items| ==> IsKnownId(items[i], existing) {
      forall j | 0 <= j < |unique| ensures IsKnownId(unique[j], existing) {
        assert unique[j] in items;
        var i :| 0 <= i < |items| && items[i] == unique[j];
      }
    }
  }

  /** An array of tags is accepted exactly when it has at most ten entries
      (counted before repeated entries are dropped) and every entry is a
      stored tag id; the stored list is the entries without repetitions, in
      order of first occurrence. */
  lemma {:induction false} TagsArrayAcceptedIff(items: seq<Json>, existing: set<JsString>, parseJson: JsString -> Option<Json>)
    ensures var r := ParseTags(Some(JArray(items)), existing, parseJson);
            r.Ok? <==> |items| <= MaxTags && forall i :: 0 <= i < |items| ==> IsKnownId(items[i], existing)
    ensures var r := ParseTags(Some(JArray(items)), existing, parseJson);
            r.Ok? ==> r.value == IdStrings(Dedupe(items))
  {
    var unique := Dedupe(items);
    CountKnownIsAll(unique, existing);
    AllKnownOfSameEntries(items, unique, existing);
    var resolved := ResolveTags(JArray(items), existing, parseJson);
    assert resolved.Ok? <==> |items| <= MaxTags && CountKnown(unique, existing) == |unique|;
    assert ParseTags(Some(JArray(items)), existing, parseJson).Ok? <==> resolved.Ok?;
  }

  /** Eleven copies of one stored id are refused, although only one would
      remain after dropping repetitions: the bound is checked first. */
  lemma ElevenCopiesRefused(id: JsString, existing: set<JsString>, parseJson: JsString -> Option<Json>)
    requires id in existing
    ensures ParseTags(Some(JArray(seq(11, _ => JString(id)))), existing, parseJson).Err?
  {
    TagsArrayAcceptedIff(seq(11, _ => JString(id)), existing, parseJson);
  }

  /** A tags text that `JSON.parse` rejects is refused with the one tags
      message. */
  lemma TagsTextNotJsonRefused(text: JsString, existing: set<JsString>, parseJson: JsString -> Option<Json>)
    requires |text| > 0 && parseJson(text).None?
    ensures ParseTags(Some(JString(text)), existing, parseJson) == Err(HttpError(400, Lit("Invalid tags format")))
  {
  }

  /** Truthy tags that are not an array, directly or once parsed, are
      refused with the one tags message. */
  lemma TagsNotArrayRefused(v: Json, existing: set<JsString>, parseJson: JsString -> Option<Json>)
    requires Truthy(v) && !v.JArray?
    requires v.JString? ==> parseJson(v.s).Some? && !parseJson(v.s).value.JArray?
    ensures ParseTags(Some(v), existing, parseJson) == Err(HttpError(400, Lit("Invalid tags format")))
  {
  }

  /** A JSON text is parsed first and then treated like the array it holds. */
  lemma TagsTextIsParsed(text: JsString, items: seq<Json>, existing: set<JsString>, parseJson: JsString -> Option<Json>)
    requires |text| > 0 && parseJson(text) == Some(JArray(items))
    ensures ParseTags(Some(JString(text)), existing, parseJson) == ParseTags(Some(JArray(items)), existing, parseJson)
  {
  }

  /** What every stored post satisfies: trimmed title and description within
      their bounds, and at most ten distinct ids of stored tags. */
  predicate ValidPost(p: PostRecord, existing: set<JsString>) {
    && 3 <= |p.title| <= 100 && Trim(p.title) == p.title
    && 10 <= |p.desc| <= 5000 && Trim(p.desc) == p.desc
    && |p.tags| <= MaxTags && Distinct(p.tags)
    && (forall i :: 0 <= i < |p.tags| ==> p.tags[i] in existing)
  }

  /** The validation half of `createPost`: fields first, then tags; the
      record keeps the trimmed text and the image location, or `null`. */
  function ValidatePost(body: PostBody, image: Option<JsString>, existing: set<JsString>, parseJson: JsString -> Option<Json>): (r: Result<PostRecord, HttpError>)
    ensures r.Ok? ==> ValidPost(r.value, existing) && r.value.image == image
    ensures r.Ok? ==> body.title.Some? && body.desc.Some?
    ensures r.Ok? ==> r.value.title == Trim(body.title.value) && r.value.desc == Trim(body.desc.value)
    ensures CheckFields(body).Err? ==> r == Err(CheckFields(body).error)
    ensures CheckFields(body).Ok? ==>
      (r.Ok? <==> ParseTags(body.tags, existing, parseJson).Ok?) &&
      (r.Ok? ==> r.value.tags == ParseTags(body.tags, existing, parseJson).value)
    ensures CheckFields(body).Ok? && ParseTags(body.tags, existing, parseJson).Err? ==>
      r == Err(ParseTags(body.tags, existing, parseJson).error)
    ensures r.Err? ==> r.error.status == 400
  {
    var fields :- CheckFields(body);
    var tags :- ParseTags(body.tags, existing, parseJson);
    TrimIdempotent(body.title.value);
    TrimIdempotent(body.desc.value);
    Ok(PostRecord(fields.0, fields.1, tags, image))
  }

  /** The body a client would send for a stored post. */
  function BodyOf(p: PostRecord): PostBody {
    PostBody(Some(p.title), Some(p.desc), Some(JArray(seq(|p.tags|, i requires 0 <= i < |p.tags| => JString(p.tags[i])))))
  }

  /** Re-submitting a valid post gives back the same record: validation is
      the identity on what it accepts. */
  lemma {:induction false} ValidatePostOfStored(p: PostRecord, existing: set<JsString>, parseJson: JsString -> Option<Json>)
    requires ValidPost(p, existing)
    ensures ValidatePost(BodyOf(p), p.image, existing, parseJson) == Ok(p)
  {
    var body := BodyOf(p);
    var items := body.tags.value.items;
    assert !Blank(body.title) && !Blank(body.desc);
    assert CheckFields(body) == Ok((p.title, p.desc));
    assert Distinct(items) by {
      forall i, j | 0 <= i < j < |items| ensures items[i] != items[j] {
        assert items[i].s == p.tags[i] && items[j].s == p.tags[j];
      }
    }
    DedupeOfDistinct(items);
    TagsArrayAcceptedIff(items, existing, parseJson);
    assert IdStrings(items) == p.tags;
  }

  /** The storing half of `createPost`: what `save` returns is the response;
      what it throws becomes a 400 unless it carries a status of its own. */
  function StorePost<D>(post: PostRecord, save: PostRecord -> Result<D, Thrown>): (r: Result<D, HttpError>)
    ensures r.Ok? <==> save(post).Ok?
    ensures r.Ok? ==> r.value == save(post).value
    ensures r.Err? ==> r.error.message == save(post).error.message
    ensures r.Err? ==> r.error.status == if save(post).error.status != 0 then save(post).error.status else 400
  {
    match save(post)
    case Ok(d) => Ok(d)
    case Err(t) => Err(ForwardOr(t, 400))
  }

  /** `createPost`: validate, then store. A rejected post never reaches the
      database, and whatever reaches it is a valid post. */
  function CreatePost<D>(body: PostBody, image: Option<JsString>, existing: set<JsString>,
                         parseJson: JsString -> Option<Json>, save: PostRecord -> Result<D, Thrown>): (r: Result<D, HttpError>)
    ensures ValidatePost(body, image, existing, parseJson).Err? ==> r == Err(ValidatePost(body, image, existing, parseJson).error)
    ensures ValidatePost(body, image, existing, parseJson).Ok? ==>
      r == StorePost(ValidatePost(body, image, existing, parseJson).value, save)
  {
    var post :- ValidatePost(body, image, existing, parseJson);
    StorePost(post, save)
  }
}
