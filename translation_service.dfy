/**
 * The translation service: building translation entities from posted rows,
 * create-or-update against the translation table, and the three bulk status
 * transitions. The table holds one row per (keyword, domain, locale); rows of
 * the same keyword and domain share a translation group id.
 */
module TranslationService {
  import opened Php

  datatype Status = Enabled | Deprecated | Disabled

  /** The identity of a stored translation. */
  datatype Key = Key(keyword: string, domain: string, locale: string)

  /** What a stored row carries besides its identity. */
  datatype Entry = Entry(text: string, status: Status, group: nat)

  /** A stored translation as returned to callers. */
  datatype Stored = Stored(key: Key, entry: Entry)

  /** An unsaved translation entity. */
  datatype Translation = Translation(keyword: string, locale: string, text: string, domain: string)

  function KeyOf(t: Translation): Key {
    Key(t.keyword, t.domain, t.locale)
  }

  /** A posted row: a decoded JSON object. */
  type RowArray = map<string, string>

  /** `TranslationException::NOT_VALID`. */
  datatype TranslationError = NotValid

  // ---------------------------------------------------------------------
  // Rows to entities

  /** A posted row is usable when it names locale, keyword, text and domain. */
  predicate ValidateArrayTranslation(row: RowArray)
    ensures ValidateArrayTranslation(row) <==> {"locale", "keyword", "text", "domain"} <= row.Keys
  {
    "locale" in row && "keyword" in row && "text" in row && "domain" in row
  }

  /** The entity a posted row describes, or `NOT_VALID`. */
  function CreateTranslationFromArray(row: RowArray): (r: Result<Translation, TranslationError>)
    ensures r.Success? <==> {"locale", "keyword", "text", "domain"} <= row.Keys
    ensures r.Failure? ==> r.error == NotValid
    ensures r.Success? ==> ToArray(r.value) == map k | k in row && k in {"locale", "keyword", "text", "domain"} :: row[k]
  {
    if !ValidateArrayTranslation(row) then Failure(NotValid)
    else Success(Translation(row["keyword"], row["locale"], row["text"], row["domain"]))
  }

  /** The posted-row form of an entity. */
  function ToArray(t: Translation): RowArray {
    map["keyword" := t.keyword, "locale" := t.locale, "text" := t.text, "domain" := t.domain]
  }

  /** Building an entity from the row form of an entity gives that entity back. */
  lemma CreateFromArrayRoundTrip(t: Translation)
    ensures CreateTranslationFromArray(ToArray(t)) == Success(t)
  {
  }

  // ---------------------------------------------------------------------
  // The table and its specification

  /** The translation table, with the group id the repository hands out next. */
  datatype Table = Table(rows: map<Key, Entry>, nextGroup: nat)

  predicate SameKeywordAndDomain(k1: Key, k2: Key) {
    k1.keyword == k2.keyword && k1.domain == k2.domain
  }

  /**
   * Rows share a group exactly when they share keyword and domain, and every
   * group is below the next one to be handed out.
   */
  ghost predicate WellGrouped(t: Table) {
    && (forall k1, k2 | k1 in t.rows && k2 in t.rows ::
          SameKeywordAndDomain(k1, k2) <==> t.rows[k1].group == t.rows[k2].group)
    && (forall k | k in t.rows :: t.rows[k].group < t.nextGroup)
  }

  /** Some row has the keyword and domain of `key` (in any locale). */
  ghost predicate HasGroup(t: Table, key: Key) {
    exists k :: k in t.rows && SameKeywordAndDomain(k, key)
  }

  /** The table after create-or-update, and the row returned. */
  datatype Upserted = Upserted(table: Table, result: Stored)

  /**
   * `createOrUpdateTranslation`: an existing row is re-enabled when disabled
   * and, with `force`, takes the incoming text; otherwise it is left alone. A
   * new row is enabled and joins the group of its keyword and domain, or
   * opens a new group.
   */
  ghost function Upsert(t: Table, e: Translation, force: bool): (u: Upserted)
    ensures u.table.rows.Keys == t.rows.Keys + {KeyOf(e)}
    ensures u.result == Stored(KeyOf(e), u.table.rows[KeyOf(e)])
    ensures u.table.nextGroup == t.nextGroup || (u.table.nextGroup == t.nextGroup + 1 && !HasGroup(t, KeyOf(e)))
  {
    var key := KeyOf(e);
    if key in t.rows then
      var found := t.rows[key];
      var enabled := if found.status == Disabled then found.(status := Enabled) else found;
      var updated := if force then enabled.(text := e.text) else enabled;
      Upserted(t.(rows := t.rows[key := updated]), Stored(key, updated))
    else if HasGroup(t, key) then
      var k :| k in t.rows && SameKeywordAndDomain(k, key);
      var entry := Entry(e.text, Enabled, t.rows[k].group);
      Upserted(t.(rows := t.rows[key := entry]), Stored(key, entry))
    else
      var entry := Entry(e.text, Enabled, t.nextGroup);
      Upserted(Table(t.rows[key := entry], t.nextGroup + 1), Stored(key, entry))
  }

  /** Every status of rows with this keyword and domain set to `st`; nothing else changes. */
  function SetStatusByKeyword(t: Table, keyword: string, domain: string, st: Status): (r: Table)
    ensures r.nextGroup == t.nextGroup && r.rows.Keys == t.rows.Keys
    ensures forall k | k in t.rows ::
      r.rows[k] == if k.keyword == keyword && k.domain == domain then t.rows[k].(status := st) else t.rows[k]
  {
    SetStatusOf(t, (set k | k in t.rows && k.keyword == keyword && k.domain == domain), st)
  }

  /** The status of the stored rows among `keys` set to `st`; nothing else changes. */
  function SetStatusOf(t: Table, keys: set<Key>, st: Status): (r: Table)
    ensures r.nextGroup == t.nextGroup && r.rows.Keys == t.rows.Keys
    ensures forall k | k in t.rows :: r.rows[k] == if k in keys then t.rows[k].(status := st) else t.rows[k]
  {
    t.(rows := map k | k in t.rows :: if k in keys then t.rows[k].(status := st) else t.rows[k])
  }

  // ---------------------------------------------------------------------
  // Properties of create-or-update

  /** Create-or-update keeps the grouping invariant. */
  lemma UpsertPreservesGrouping(t: Table, e: Translation, force: bool)
    requires WellGrouped(t)
    ensures WellGrouped(Upsert(t, e, force).table)
  {
    var key := KeyOf(e);
    var u := Upsert(t, e, force).table;
    if key !in t.rows && HasGroup(t, key) {
      var k0 :| k0 in t.rows && SameKeywordAndDomain(k0, key);
      assert u.rows[key].group == t.rows[k0].group;
      forall k1 | k1 in u.rows
        ensures SameKeywordAndDomain(k1, key) <==> u.rows[k1].group == u.rows[key].group
      {
        if k1 != key {
          assert SameKeywordAndDomain(k1, key) <==> SameKeywordAndDomain(k1, k0);
        }
      }
    }
  }

  /**
   * When the row exists: a disabled row becomes enabled, any other status is
   * kept; the text is replaced exactly when `force` is set; the group is
   * kept; the returned row is the stored one.
   */
  lemma UpsertExisting(t: Table, e: Translation, force: bool)
    requires KeyOf(e) in t.rows
    ensures var u := Upsert(t, e, force); var was := t.rows[KeyOf(e)];
      && u.result == Stored(KeyOf(e), u.table.rows[KeyOf(e)])
      && u.table.rows[KeyOf(e)].status == (if was.status == Disabled then Enabled else was.status)
      && u.table.rows[KeyOf(e)].text == (if force then e.text else was.text)
      && u.table.rows[KeyOf(e)].group == was.group
      && u.table.rows.Keys == t.rows.Keys && u.table.nextGroup == t.nextGroup
  {
  }

  /**
   * A new locale of a keyword and domain that exist in another locale joins
   * their group; a keyword and domain seen for the first time get a group no
   * row had. Either way the new row is enabled and holds the incoming text.
   */
  lemma UpsertNew(t: Table, e: Translation, force: bool)
    requires WellGrouped(t)
    requires KeyOf(e) !in t.rows
    ensures var u := Upsert(t, e, force); var entry := u.table.rows[KeyOf(e)];
      && u.result == Stored(KeyOf(e), entry)
      && entry.status == Enabled && entry.text == e.text
      && (forall k | k in t.rows && SameKeywordAndDomain(k, KeyOf(e)) :: entry.group == t.rows[k].group)
      && (forall k | k in t.rows :: !SameKeywordAndDomain(k, KeyOf(e)) ==> entry.group != t.rows[k].group)
      && u.table.rows.Keys == t.rows.Keys + {KeyOf(e)}
  {
    UpsertPreservesGrouping(t, e, force);
  }

  /** Create-or-update touches no row other than the incoming one. */
  lemma UpsertFrame(t: Table, e: Translation, force: bool, k: Key)
    requires k in t.rows && k != KeyOf(e)
    ensures k in Upsert(t, e, force).table.rows && Upsert(t, e, force).table.rows[k] == t.rows[k]
  {
  }

  // ---------------------------------------------------------------------
  // Batches of create-or-update, as the controller runs them

  /** The table after a batch, and the rows returned, one per entity. */
  datatype Batch = Batch(table: Table, results: seq<Stored>)

  /** The table after create-or-update of each entity in order, each seeing the effects of the ones before. */
  ghost function UpsertSeq(t: Table, es: seq<Translation>, force: bool): (u: Table)
    ensures u.rows.Keys == t.rows.Keys + (set i | 0 <= i < |es| :: KeyOf(es[i]))
    decreases |es|
  {
    if es == [] then t
    else Upsert(UpsertSeq(t, es[..|es| - 1], force), es[|es| - 1], force).table
  }

  /** One more entity of a batch is one more create-or-update on the table so far. */
  lemma UpsertSeqStep(t: Table, es: seq<Translation>, n: nat, force: bool)
    requires n < |es|
    ensures UpsertSeq(t, es[..n + 1], force) == Upsert(UpsertSeq(t, es[..n], force), es[n], force).table
  {
    assert es[..n + 1][..n] == es[..n];
  }

  /**
   * A batch as the controller answers it. Each call returns the managed
   * entity, and the collected entities are serialized only after the loop,
   * so every position shows its row as the whole batch left it: an entity
   * posted twice shows its last version both times.
   */
  ghost function UpsertAll(t: Table, es: seq<Translation>, force: bool): (b: Batch)
    ensures b.table.rows.Keys == t.rows.Keys + (set i | 0 <= i < |es| :: KeyOf(es[i]))
    ensures |b.results| == |es|
    ensures forall i | 0 <= i < |es| :: KeyOf(es[i]) in b.table.rows && b.results[i] == Stored(KeyOf(es[i]), b.table.rows[KeyOf(es[i])])
  {
    var final := UpsertSeq(t, es, force);
    assert forall i | 0 <= i < |es| :: KeyOf(es[i]) in final.rows;
    Batch(final, seq(|es|, i requires 0 <= i < |es| => Stored(KeyOf(es[i]), final.rows[KeyOf(es[i])])))
  }

  /**
   * The table after a batch keeps the grouping invariant and leaves every
   * row that no entity names as it was.
   */
  lemma {:induction false} UpsertSeqProperties(t: Table, es: seq<Translation>, force: bool)
    requires WellGrouped(t)
    ensures var u := UpsertSeq(t, es, force);
      && WellGrouped(u)
      && (forall k | k in t.rows :: k in u.rows)
      && (forall k | k in t.rows && (forall i | 0 <= i < |es| :: KeyOf(es[i]) != k) :: u.rows[k] == t.rows[k])
    decreases |es|
  {
    if es != [] {
      var init := es[..|es| - 1];
      var e := es[|es| - 1];
      UpsertSeqProperties(t, init, force);
      var before := UpsertSeq(t, init, force);
      UpsertPreservesGrouping(before, e, force);
      forall k | k in t.rows && (forall i | 0 <= i < |es| :: KeyOf(es[i]) != k)
        ensures UpsertSeq(t, es, force).rows[k] == t.rows[k]
      {
        assert forall i | 0 <= i < |init| :: init[i] == es[i];
        assert KeyOf(es[|es| - 1]) != k;
        UpsertFrame(before, e, force, k);
      }
    }
  }

  /**
   * A batch keeps the grouping invariant, returns one row per entity in
   * input order, each the final row of that entity's key, keeps every old
   * key and leaves every row that no entity names as it was.
   */
  lemma UpsertAllProperties(t: Table, es: seq<Translation>, force: bool)
    requires WellGrouped(t)
    ensures var b := UpsertAll(t, es, force);
      && WellGrouped(b.table)
      && |b.results| == |es|
      && (forall i | 0 <= i < |es| :: b.results[i].key == KeyOf(es[i]))
      && (forall i | 0 <= i < |es| :: KeyOf(es[i]) in b.table.rows && b.results[i].entry == b.table.rows[KeyOf(es[i])])
      && (forall k | k in t.rows :: k in b.table.rows)
      && (forall k | k in t.rows && (forall i | 0 <= i < |es| :: KeyOf(es[i]) != k) :: b.table.rows[k] == t.rows[k])
  {
    UpsertSeqProperties(t, es, force);
  }

  /**
   * The rows a batch returns are not snapshots: when the last entity names
   * the same key as an earlier one, both positions show the last call's row.
   */
  lemma RepeatedKeyShowsFinalRow(t: Table, es: seq<Translation>, force: bool, i: nat)
    requires i < |es| - 1 && KeyOf(es[i]) == KeyOf(es[|es| - 1])
    ensures UpsertAll(t, es, force).results[i]
         == Upsert(UpsertSeq(t, es[..|es| - 1], force), es[|es| - 1], force).result
  {
  }

  /** Setting statuses leaves the groups, and so the grouping invariant, untouched. */
  lemma SetStatusPreservesGrouping(t: Table, keys: set<Key>, st: Status)
    requires WellGrouped(t)
    ensures WellGrouped(SetStatusOf(t, keys, st))
  {
  }

  /** Enabling after deprecating the same keyword leaves it as enabling alone would. */
  lemma EnableAfterDeprecate(t: Table, keyword: string, domain: string)
    ensures SetStatusByKeyword(SetStatusByKeyword(t, keyword, domain, Deprecated), keyword, domain, Enabled)
         == SetStatusByKeyword(t, keyword, domain, Enabled)
  {
    var a := SetStatusByKeyword(SetStatusByKeyword(t, keyword, domain, Deprecated), keyword, domain, Enabled);
    var b := SetStatusByKeyword(t, keyword, domain, Enabled);
    assert a.rows == b.rows;
  }

  // ---------------------------------------------------------------------
  // The repository and the service

  /** The stored translations, updated in place by the service. */
  class TranslationRepository {
    var rows: map<Key, Entry>
    var nextGroup: nat

    function Value(): Table
      reads this
    {
      Table(rows, nextGroup)
    }

    ghost predicate Valid()
      reads this
    {
      WellGrouped(Value())
    }

    constructor (rows: map<Key, Entry>, nextGroup: nat)
      requires WellGrouped(Table(rows, nextGroup))
      ensures Valid() && Value() == Table(rows, nextGroup)
    {
      this.rows := rows;
      this.nextGroup := nextGroup;
    }
  }

  class TranslationService {
    const repository: TranslationRepository

    constructor (repository: TranslationRepository)
      ensures this.repository == repository
    {
      this.repository := repository;
    }

    /** One entity per posted row, in order; any invalid row fails the whole call with `NOT_VALID`. */
    method CreateCollectionFromArray(translations: seq<RowArray>) returns (r: Result<seq<Translation>, TranslationError>)
      ensures r.Success? <==> forall i | 0 <= i < |translations| :: ValidateArrayTranslation(translations[i])
      ensures r.Failure? ==> r.error == NotValid
      ensures r.Success? ==> |r.value| == |translations|
      ensures r.Success? ==>
        forall i | 0 <= i < |translations| :: CreateTranslationFromArray(translations[i]) == Success(r.value[i])
    {
      var result: seq<Translation> := [];
      var i := 0;
      while i < |translations|
        invariant 0 <= i <= |translations|
        invariant |result| == i
        invariant forall j | 0 <= j < i :: CreateTranslationFromArray(translations[j]) == Success(result[j])
      {
        var created := CreateTranslationFromArray(translations[i]);
        if created.Failure? {
          return Failure(created.error);
        }
        result := result + [created.value];
        i := i + 1;
      }
      r := Success(result);
    }

    /** `createOrUpdateTranslation`, against the repository in place. */
    method CreateOrUpdateTranslation(translation: Translation, force: bool := false) returns (result: Stored)
      requires repository.Valid()
      modifies repository
      ensures repository.Valid()
      ensures Upserted(repository.Value(), result) == Upsert(old(repository.Value()), translation, force)
      ensures result.key == KeyOf(translation)
    {
      ghost var before := repository.Value();
      var key := KeyOf(translation);
      if key in repository.rows {
        var found := repository.rows[key];
        if found.status == Disabled {
          found := found.(status := Enabled);
          repository.rows := repository.rows[key := found];
        }
        if force {
          found := found.(text := translation.text);
          repository.rows := repository.rows[key := found];
        }
        return Stored(key, found);
      }

      if exists k :: k in repository.rows && SameKeywordAndDomain(k, key) {
        // a new locale joins the translation group of the keyword and domain
        var other :| other in repository.rows && SameKeywordAndDomain(other, key);
        repository.rows := repository.rows[key := Entry(translation.text, Enabled, repository.rows[other].group)];
        ghost var k :| k in before.rows && SameKeywordAndDomain(k, key) && Upsert(before, translation, force).table.rows[key].group == before.rows[k].group;
        assert SameKeywordAndDomain(k, other);
      } else {
        // a new translation group
        repository.rows := repository.rows[key := Entry(translation.text, Enabled, repository.nextGroup)];
        repository.nextGroup := repository.nextGroup + 1;
      }
      result := Stored(key, repository.rows[key]);
      UpsertPreservesGrouping(before, translation, force);
    }

    /** Sets the status of the stored rows among `keys`, one row at a time. */
    method SetStatus(keys: set<Key>, st: Status)
      modifies repository
      ensures repository.Value() == SetStatusOf(old(repository.Value()), keys, st)
      ensures old(repository.Valid()) ==> repository.Valid()
    {
      ghost var start := repository.Value();
      var todo := keys;
      while todo != {}
        invariant todo <= keys
        invariant repository.nextGroup == start.nextGroup
        invariant repository.rows.Keys == start.rows.Keys
        invariant forall k | k in start.rows ::
          repository.rows[k] == if k in keys - todo then start.rows[k].(status := st) else start.rows[k]
        decreases todo
      {
        var k :| k in todo;
        if k in repository.rows {
          repository.rows := repository.rows[k := repository.rows[k].(status := st)];
        }
        todo := todo - {k};
      }
      assert repository.rows == SetStatusOf(start, keys, st).rows;
      if WellGrouped(start) {
        SetStatusPreservesGrouping(start, keys, st);
      }
    }

    /** Every row of the keyword and domain becomes DEPRECATED. */
    method DeprecateTranslations(keyword: string, domain: string)
      modifies repository
      ensures repository.Value() == SetStatusByKeyword(old(repository.Value()), keyword, domain, Deprecated)
      ensures old(repository.Valid()) ==> repository.Valid()
    {
      var found := set k | k in repository.rows && k.keyword == keyword && k.domain == domain;
      SetStatus(found, Deprecated);
    }

    /** The rows found by the deprecated-before-date lookup become DISABLED. */
    method DisableDeprecatedTranslations(found: set<Key>)
      modifies repository
      ensures repository.Value() == SetStatusOf(old(repository.Value()), found, Disabled)
      ensures old(repository.Valid()) ==> repository.Valid()
    {
      SetStatus(found, Disabled);
    }

    /** Every row of the keyword and domain becomes ENABLED. */
    method EnableDeprecatedTranslations(keyword: string, domain: string)
      modifies repository
      ensures repository.Value() == SetStatusByKeyword(old(repository.Value()), keyword, domain, Enabled)
      ensures old(repository.Valid()) ==> repository.Valid()
    {
      var found := set k | k in repository.rows && k.keyword == keyword && k.domain == domain;
      SetStatus(found, Enabled);
    }
  }
}
