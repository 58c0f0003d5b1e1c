/**
 * The translation endpoints: the three lookups guarded by a required locale,
 * the batch create-or-update, and the batch status transitions, each of which
 * validates the whole request body before changing anything.
 */
module TranslationsController {
  import opened Php
  import opened TranslationService

  /** How an endpoint fails: `NotFoundHttpException` or a `TranslationException`. */
  datatype ControllerError = NotFound(message: string) | Invalid(error: TranslationError)

  // ---------------------------------------------------------------------
  // Lookups

  /**
   * `findAllNotDisabled($locale, $domain)`: the rows of the locale (and of
   * the domain, when one is given) whose status is not DISABLED.
   */
  function FindAllNotDisabled(rows: map<Key, Entry>, locale: string, domain: Option<string>): (r: map<Key, Entry>)
    ensures forall k :: k in r <==>
      k in rows && k.locale == locale && (domain.Some? ==> k.domain == domain.value) && rows[k].status != Disabled
    ensures forall k | k in r :: r[k] == rows[k]
  {
    map k | k in rows && k.locale == locale && (domain.Some? ==> k.domain == domain.value) && rows[k].status != Disabled
      :: rows[k]
  }

  /** `GET /public/translations`: a missing or falsy locale is NotFound before any lookup. */
  function GetTranslationsAction(repository: TranslationRepository, locale: Option<string>): (r: Result<map<Key, Entry>, ControllerError>)
    reads repository
    ensures FalsyString(locale) <==> r.Failure?
    ensures r.Failure? ==> r.error == NotFound("locale is required")
    ensures r.Success? ==> forall k :: k in r.value <==>
      k in repository.rows && k.locale == locale.value && repository.rows[k].status != Disabled
    ensures r.Success? ==> r.value == FindAllNotDisabled(repository.rows, locale.value, None)
  {
    if FalsyString(locale) then Failure(NotFound("locale is required"))
    else Success(FindAllNotDisabled(repository.rows, locale.value, None))
  }

  /** `GET /public/translations/{domain}`: as above, restricted to the domain. */
  function GetTranslationsByDomainAction(repository: TranslationRepository, locale: Option<string>, domain: string)
    : (r: Result<map<Key, Entry>, ControllerError>)
    reads repository
    ensures FalsyString(locale) <==> r.Failure?
    ensures r.Failure? ==> r.error == NotFound("locale is required")
    ensures r.Success? ==> forall k :: k in r.value <==>
      k in repository.rows && k.locale == locale.value && k.domain == domain && repository.rows[k].status != Disabled
    ensures r.Success? ==> r.value == FindAllNotDisabled(repository.rows, locale.value, Some(domain))
  {
    if FalsyString(locale) then Failure(NotFound("locale is required"))
    else Success(FindAllNotDisabled(repository.rows, locale.value, Some(domain)))
  }

  /** `GET /public/translations/{domain}/{keyword}`: the row, only when it exists and is not disabled. */
  function GetTranslationAction(repository: TranslationRepository, domain: string, keyword: string, locale: Option<string>)
    : (r: Result<Stored, ControllerError>)
    reads repository
    ensures FalsyString(locale) ==> r == Failure(NotFound("locale is required"))
    ensures r.Success? <==> TruthyString(locale) && Key(keyword, domain, locale.value) in repository.rows
                            && repository.rows[Key(keyword, domain, locale.value)].status != Disabled
    ensures r.Success? ==> r.value == Stored(Key(keyword, domain, locale.value), repository.rows[Key(keyword, domain, locale.value)])
    ensures TruthyString(locale) && r.Failure? ==> r.error == NotFound("")
  {
    if FalsyString(locale) then Failure(NotFound("locale is required"))
    else
      var key := Key(keyword, domain, locale.value);
      if key in repository.rows && repository.rows[key].status != Disabled then Success(Stored(key, repository.rows[key]))
      else Failure(NotFound(""))
  }

  // ---------------------------------------------------------------------
  // Batch create-or-update

  /** A posted row with every field present except possibly the domain. */
  predicate Postable(row: RowArray)
    ensures Postable(row) <==> {"locale", "keyword", "text"} <= row.Keys
  {
    "locale" in row && "keyword" in row && "text" in row
  }

  /** The entity a postable row yields once its domain is replaced by the path domain. */
  function PostedEntity(row: RowArray, domain: string): Translation
    requires Postable(row)
  {
    Translation(row["keyword"], row["locale"], row["text"], domain)
  }

  /**
   * Once the path domain is written into it, a row is valid exactly when it
   * is postable, and then it builds the posted entity.
   */
  lemma PostableWithDomain(row: RowArray, domain: string)
    ensures Postable(row) <==> ValidateArrayTranslation(row["domain" := domain])
    ensures Postable(row) ==> CreateTranslationFromArray(row["domain" := domain]) == Success(PostedEntity(row, domain))
  {
    var withDomain := row["domain" := domain];
    assert "domain" != "locale" && "domain" != "keyword" && "domain" != "text";
    assert forall k | k in {"locale", "keyword", "text"} :: (k in withDomain <==> k in row);
  }

  function PostedEntities(body: seq<RowArray>, domain: string): (es: seq<Translation>)
    requires forall i | 0 <= i < |body| :: Postable(body[i])
    ensures |es| == |body|
    ensures forall i | 0 <= i < |body| :: CreateTranslationFromArray(body[i]["domain" := domain]) == Success(es[i])
  {
    assert forall i | 0 <= i < |body| :: CreateTranslationFromArray(body[i]["domain" := domain]) == Success(PostedEntity(body[i], domain)) by {
      forall i | 0 <= i < |body| ensures CreateTranslationFromArray(body[i]["domain" := domain]) == Success(PostedEntity(body[i], domain)) {
        PostableWithDomain(body[i], domain);
      }
    }
    seq(|body|, i requires 0 <= i < |body| => PostedEntity(body[i], domain))
  }

  /** The controller's first loop: every posted row's domain is replaced by the path domain. */
  method OverwriteDomain(body: seq<RowArray>, domain: string) returns (translations: seq<RowArray>)
    ensures |translations| == |body|
    ensures forall j | 0 <= j < |body| :: translations[j] == body[j]["domain" := domain]
  {
    translations := body;
    var i := 0;
    while i < |translations|
      invariant 0 <= i <= |translations| == |body|
      invariant forall j | 0 <= j < |body| :: translations[j] == if j < i then body[j]["domain" := domain] else body[j]
    {
      translations := translations[i := translations[i]["domain" := domain]];
      i := i + 1;
    }
  }

  /**
   * `POST /translations/{domain}`: every row's domain is overwritten with the
   * path domain; the rows are all turned into entities first, so one invalid
   * row fails the call before anything is stored; then each entity is
   * created or updated in turn, `force` being true exactly for the query
   * value "true"; the output holds one entity per posted row, in order,
   * each shown as the whole batch left it.
   */
  method PostTranslationsAction(service: TranslationService, body: seq<RowArray>, force: Option<string>,
                                domain: string := "messages")
    returns (r: Result<seq<Stored>, ControllerError>)
    requires service.repository.Valid()
    modifies service.repository
    ensures service.repository.Valid()
    ensures r.Failure? <==> exists i | 0 <= i < |body| :: !Postable(body[i])
    ensures r.Failure? ==> r.error == Invalid(NotValid) && service.repository.Value() == old(service.repository.Value())
    ensures r.Success? ==>
      Batch(service.repository.Value(), r.value)
        == UpsertAll(old(service.repository.Value()), PostedEntities(body, domain), force == Some("true"))
  {
    var forced := force == Some("true");

    var translations := OverwriteDomain(body, domain);
    assert forall j | 0 <= j < |body| :: ValidateArrayTranslation(translations[j]) <==> Postable(body[j]);

    var created := service.CreateCollectionFromArray(translations);
    if created.Failure? {
      return Failure(Invalid(created.error));
    }
    var entities := created.value;
    assert entities == PostedEntities(body, domain);

    ghost var start := service.repository.Value();
    var handles := CreateOrUpdateEach(service, entities, forced);
    var output := Serialized(service.repository.Value(), handles);
    assert output == UpsertAll(start, entities, forced).results;
    r := Success(output);
  }

  /**
   * The response body: each collected entity as it stands when the view is
   * rendered, after the whole batch.
   */
  function Serialized(t: Table, handles: seq<Key>): (rows: seq<Stored>)
    requires forall i | 0 <= i < |handles| :: handles[i] in t.rows
    ensures |rows| == |handles|
    ensures forall i | 0 <= i < |handles| :: rows[i].key == handles[i] && rows[i].entry == t.rows[handles[i]]
  {
    seq(|handles|, i requires 0 <= i < |handles| => Stored(handles[i], t.rows[handles[i]]))
  }

  /** The keys of a sequence of entities, in order. */
  function KeysOf(es: seq<Translation>): (keys: seq<Key>)
    ensures |keys| == |es|
    ensures forall i | 0 <= i < |es| :: keys[i] == KeyOf(es[i])
  {
    if es == [] then [] else KeysOf(es[..|es| - 1]) + [KeyOf(es[|es| - 1])]
  }

  /**
   * The controller's loop over the built entities: each is created or
   * updated in turn, and the entity it returns is collected. A collected
   * entity is modelled by its key, the identity of the managed row.
   */
  method CreateOrUpdateEach(service: TranslationService, entities: seq<Translation>, forced: bool)
    returns (handles: seq<Key>)
    requires service.repository.Valid()
    modifies service.repository
    ensures service.repository.Valid()
    ensures service.repository.Value() == UpsertSeq(old(service.repository.Value()), entities, forced)
    ensures handles == KeysOf(entities)
  {
    ghost var start := service.repository.Value();
    handles := [];
    var n := 0;
    while n < |entities|
      invariant 0 <= n <= |entities|
      invariant service.repository.Valid()
      invariant service.repository.Value() == UpsertSeq(start, entities[..n], forced)
      invariant handles == KeysOf(entities[..n])
    {
      UpsertSeqStep(start, entities, n, forced);
      assert entities[..n + 1][..n] == entities[..n];
      var stored := service.CreateOrUpdateTranslation(entities[n], forced);
      handles := handles + [stored.key];
      n := n + 1;
    }
    assert entities[..n] == entities;
  }

  // ---------------------------------------------------------------------
  // Batch status transitions

  /** The keywords of a request body whose every element names one. */
  function KeywordsOf(body: seq<RowArray>): (kws: seq<string>)
    requires forall i | 0 <= i < |body| :: "keyword" in body[i]
    ensures |kws| == |body|
  {
    seq(|body|, i requires 0 <= i < |body| => body[i]["keyword"])
  }

  /** The service's keyword transition applied for each keyword in turn. */
  function SetStatusByKeywords(t: Table, keywords: seq<string>, domain: string, st: Status): (r: Table)
    ensures r.rows.Keys == t.rows.Keys && r.nextGroup == t.nextGroup
    ensures forall k | k in t.rows :: r.rows[k].text == t.rows[k].text && r.rows[k].group == t.rows[k].group
    decreases |keywords|
  {
    if keywords == [] then t
    else SetStatusByKeyword(SetStatusByKeywords(t, keywords[..|keywords| - 1], domain, st), keywords[|keywords| - 1], domain, st)
  }

  /**
   * Running the transition keyword by keyword sets `st` on exactly the rows
   * of the domain whose keyword is listed; nothing else changes.
   */
  lemma {:induction false} SetStatusByKeywordsEffect(t: Table, keywords: seq<string>, domain: string, st: Status)
    ensures var r := SetStatusByKeywords(t, keywords, domain, st);
      && r.rows.Keys == t.rows.Keys && r.nextGroup == t.nextGroup
      && forall k | k in t.rows ::
           r.rows[k] == if k.domain == domain && k.keyword in keywords then t.rows[k].(status := st) else t.rows[k]
    decreases |keywords|
  {
    if keywords != [] {
      var init := keywords[..|keywords| - 1];
      SetStatusByKeywordsEffect(t, init, domain, st);
      assert forall w :: w in keywords <==> w in init || w == keywords[|keywords| - 1];
    }
  }

  /** The body check both keyword endpoints run before any change: every element names a keyword. */
  method ValidateKeywords(body: seq<RowArray>) returns (r: Result<(), ControllerError>)
    ensures r.Success? <==> forall i | 0 <= i < |body| :: "keyword" in body[i]
    ensures r.Failure? ==> r.error == Invalid(NotValid)
  {
    var i := 0;
    while i < |body|
      invariant 0 <= i <= |body|
      invariant forall j | 0 <= j < i :: "keyword" in body[j]
    {
      if "keyword" !in body[i] {
        return Failure(Invalid(NotValid));
      }
      i := i + 1;
    }
    r := Success(());
  }

  /**
   * `PUT /translations/deprecate/{domain}`: all or nothing; when every
   * element names a keyword, every row of the domain with a listed keyword
   * becomes DEPRECATED.
   */
  method DeprecateTranslationsAction(service: TranslationService, body: seq<RowArray>, domain: string := "messages")
    returns (r: Result<(), ControllerError>)
    modifies service.repository
    ensures old(service.repository.Valid()) ==> service.repository.Valid()
    ensures r.Failure? <==> exists i | 0 <= i < |body| :: "keyword" !in body[i]
    ensures r.Failure? ==> r.error == Invalid(NotValid) && service.repository.Value() == old(service.repository.Value())
    ensures r.Success? ==>
      service.repository.Value() == SetStatusByKeywords(old(service.repository.Value()), KeywordsOf(body), domain, Deprecated)
  {
    r := ValidateKeywords(body);
    if r.Failure? {
      return;
    }
    ghost var start := service.repository.Value();
    var i := 0;
    while i < |body|
      invariant 0 <= i <= |body|
      invariant service.repository.Value() == SetStatusByKeywords(start, KeywordsOf(body)[..i], domain, Deprecated)
    {
      assert KeywordsOf(body)[..i + 1][..i] == KeywordsOf(body)[..i];
      service.DeprecateTranslations(body[i]["keyword"], domain);
      i := i + 1;
    }
    assert KeywordsOf(body)[..i] == KeywordsOf(body);
    if old(service.repository.Valid()) {
      KeywordTransitionsPreserveGrouping(start, KeywordsOf(body), domain, Deprecated);
    }
  }

  /**
   * `PUT /translations/enable/{domain}`: all or nothing; when every element
   * names a keyword, every row of the domain with a listed keyword becomes
   * ENABLED.
   */
  method EnableDeprecatedTranslationsAction(service: TranslationService, body: seq<RowArray>, domain: string := "messages")
    returns (r: Result<(), ControllerError>)
    modifies service.repository
    ensures old(service.repository.Valid()) ==> service.repository.Valid()
    ensures r.Failure? <==> exists i | 0 <= i < |body| :: "keyword" !in body[i]
    ensures r.Failure? ==> r.error == Invalid(NotValid) && service.repository.Value() == old(service.repository.Value())
    ensures r.Success? ==>
      service.repository.Value() == SetStatusByKeywords(old(service.repository.Value()), KeywordsOf(body), domain, Enabled)
  {
    r := ValidateKeywords(body);
    if r.Failure? {
      return;
    }
    ghost var start := service.repository.Value();
    var i := 0;
    while i < |body|
      invariant 0 <= i <= |body|
      invariant service.repository.Value() == SetStatusByKeywords(start, KeywordsOf(body)[..i], domain, Enabled)
    {
      assert KeywordsOf(body)[..i + 1][..i] == KeywordsOf(body)[..i];
      service.EnableDeprecatedTranslations(body[i]["keyword"], domain);
      i := i + 1;
    }
    assert KeywordsOf(body)[..i] == KeywordsOf(body);
    if old(service.repository.Valid()) {
      KeywordTransitionsPreserveGrouping(start, KeywordsOf(body), domain, Enabled);
    }
  }

  /**
   * `PUT /translations/disable/{domain}`: a body without `date` is
   * `NOT_VALID` and changes nothing; otherwise the rows the
   * deprecated-before-date lookup returns for that date and domain become
   * DISABLED.
   */
  method DisableDeprecatedTranslationsAction(service: TranslationService, body: RowArray, domain: string,
                                             deprecatedBefore: (string, string) -> set<Key>)
    returns (r: Result<(), ControllerError>)
    modifies service.repository
    ensures old(service.repository.Valid()) ==> service.repository.Valid()
    ensures r.Failure? <==> "date" !in body
    ensures r.Failure? ==> r.error == Invalid(NotValid) && service.repository.Value() == old(service.repository.Value())
    ensures r.Success? ==>
      service.repository.Value() == SetStatusOf(old(service.repository.Value()), deprecatedBefore(body["date"], domain), Disabled)
  {
    if "date" !in body {
      return Failure(Invalid(NotValid));
    }
    ghost var start := service.repository.Value();
    service.DisableDeprecatedTranslations(deprecatedBefore(body["date"], domain));
    if old(service.repository.Valid()) {
      SetStatusPreservesGrouping(start, deprecatedBefore(body["date"], domain), Disabled);
    }
    r := Success(());
  }

  /** Keyword transitions never touch groups. */
  lemma KeywordTransitionsPreserveGrouping(t: Table, keywords: seq<string>, domain: string, st: Status)
    requires WellGrouped(t)
    ensures WellGrouped(SetStatusByKeywords(t, keywords, domain, st))
  {
    SetStatusByKeywordsEffect(t, keywords, domain, st);
  }
}
