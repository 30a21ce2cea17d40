/** The wizard's formsets: reconciling the rows a request is joined to (oldest first)
    with the submitted forms, position by position, as `RegistrarFormSet._to_database`
    does, together with the hooks of the website, alternative-domain and other-contacts
    formsets. */
module WizardFormSet {
  import opened Strings
  import opened Wrappers
  import opened WizardForms

  /** The three formsets, each with its hooks; the other-contacts formset carries its
      `formset_data_marked_for_deletion` flag. */
  datatype Kind = CurrentWebsites | AlternativeDomains | OtherContacts(formsetMarked: bool)

  /** A stored row reached through the request's join. `shared` is the answer of
      `has_more_than_one_join` for the join's related name (false for a model that has
      no such method). */
  datatype Row = Row(id: nat, columns: map<string, Value>, shared: bool)

  /** `cleaned.get(key, "")` for a text field. The modelled forms clean these fields to
      text or leave them out, so the blank for a non-text value never arises; Python's
      `.strip()` would raise on one. */
  function TextOrBlank(c: Cleaned, key: string): string {
    if key in c && c[key].Text? then c[key].text else ""
  }

  /** The formsets' `should_delete` hooks. A website or alternative-domain entry
      strips to nothing exactly when it is all whitespace (`BlankEntriesAreDeleted`). */
  predicate ShouldDelete(kind: Kind, c: Cleaned) {
    match kind
    case CurrentWebsites => Blank(TextOrBlank(c, "website"))
    case AlternativeDomains => Blank(TextOrBlank(c, "alternative_domain"))
    case OtherContacts(marked) => marked || Truthy(Get(c, "DELETE", Flag(false)))
  }

  /** A website or alternative-domain entry is deleted exactly when the entered value
      strips to the empty string (an absent value counts as blank). */
  lemma BlankEntriesAreDeleted(kind: Kind, c: Cleaned)
    requires kind.CurrentWebsites? || kind.AlternativeDomains?
    ensures kind.CurrentWebsites? ==> (ShouldDelete(kind, c) <==> Strip(TextOrBlank(c, "website")) == "")
    ensures kind.AlternativeDomains? ==> (ShouldDelete(kind, c) <==> Strip(TextOrBlank(c, "alternative_domain")) == "")
  {
    var key := if kind.CurrentWebsites? then "website" else "alternative_domain";
    StripBlankIff(TextOrBlank(c, key));
    BlankIsAllSpace(TextOrBlank(c, key));
  }

  /** The `pre_update` hooks: the default sets every cleaned field on the row; the
      alternative-domain hook only sets `website` to the entered label plus `.gov`. */
  function PreUpdate(kind: Kind, columns: map<string, Value>, c: Cleaned): map<string, Value> {
    match kind
    case AlternativeDomains =>
      if "alternative_domain" in c && c["alternative_domain"].Text? then
        columns["website" := Text(DotGov(c["alternative_domain"].text))]
      else columns
    case _ => columns + c
  }

  /** The `pre_create` hooks: the keyword arguments of the row to create. The default
      passes the cleaned data; the alternative-domain hook passes only the `.gov` name;
      the other-contacts hook drops the DELETE flag. */
  function PreCreate(kind: Kind, c: Cleaned): Cleaned {
    match kind
    case CurrentWebsites => c
    case AlternativeDomains =>
      if "alternative_domain" in c && c["alternative_domain"].Text? then
        map["website" := Text(DotGov(c["alternative_domain"].text))]
      else map[]
    case OtherContacts(_) => c - {"DELETE"}
  }

  /** A contact created from a form carries every cleaned field of the form except the
      DELETE flag, whose value it leaves out. */
  lemma CreatedContactHasNoDeleteFlag(marked: bool, c: Cleaned)
    ensures var r := PreCreate(OtherContacts(marked), c);
      "DELETE" !in r && r.Keys == c.Keys - {"DELETE"} && forall k :: k in r ==> r[k] == c[k]
  {
  }

  /** A stored alternative domain has a text `website` column. */
  predicate HasWebsite(r: Row) {
    "website" in r.columns && r.columns["website"].Text?
  }

  function Website(r: Row): string
    requires HasWebsite(r)
  {
    r.columns["website"].text
  }

  /** The `on_fetch` hooks, applied to the rows of the join oldest first: by default
      each row's values; for alternative domains, each row's `website` reduced to its
      second-level label by the registry helper `sld`. */
  function OnFetch(kind: Kind, rows: seq<Row>, sld: string -> string): (r: seq<Cleaned>)
    requires kind.AlternativeDomains? ==> forall i :: 0 <= i < |rows| ==> HasWebsite(rows[i])
    ensures |r| == |rows|
    ensures !kind.AlternativeDomains? ==> forall i :: 0 <= i < |rows| ==> r[i] == rows[i].columns
    ensures kind.AlternativeDomains? ==> forall i :: 0 <= i < |rows| ==>
      r[i] == map["alternative_domain" := Text(sld(Website(rows[i])))]
  {
    if kind.AlternativeDomains? then
      seq(|rows|, i requires 0 <= i < |rows| && HasWebsite(rows[i]) =>
        map["alternative_domain" := Text(sld(Website(rows[i])))])
    else
      seq(|rows|, i requires 0 <= i < |rows| => rows[i].columns)
  }

  /** An alternative domain entered as `d` is stored as `d.gov` whether its row is created
      or updated, and is fetched back as the second-level label of `d.gov`; when that label
      is `d` again, the fetched entry is exactly the one the user entered. */
  lemma AlternativeDomainStoredWithGov(c: Cleaned, columns: map<string, Value>, id: nat, sld: string -> string)
    requires "alternative_domain" in c && c["alternative_domain"].Text?
    requires forall s :: sld(s + ".gov") == s
    ensures var stored := Text(c["alternative_domain"].text + ".gov");
      && PreCreate(AlternativeDomains, c) == map["website" := stored]
      && PreUpdate(AlternativeDomains, columns, c)["website"] == stored
    ensures var row := Row(id, PreCreate(AlternativeDomains, c), false);
      HasWebsite(row) &&
      OnFetch(AlternativeDomains, [row], sld) ==
        [map["alternative_domain" := Text(sld(c["alternative_domain"].text + ".gov"))]]
    ensures OnFetch(AlternativeDomains, [Row(id, PreCreate(AlternativeDomains, c), false)], sld) ==
      [map["alternative_domain" := c["alternative_domain"]]]
  {
    var row := Row(id, PreCreate(AlternativeDomains, c), false);
    assert HasWebsite(row);
  }

  /** One position of `zip_longest(query, self.forms)`. */
  datatype Pair = Pair(db: Option<Row>, form: Option<Cleaned>)

  function Max(a: nat, b: nat): nat {
    if a < b then b else a
  }

  /** `zip_longest(query, forms, fillvalue=None)`. */
  function ZipLongest(query: seq<Row>, forms: seq<Cleaned>): (ps: seq<Pair>)
    ensures |ps| == Max(|query|, |forms|)
    ensures forall i :: 0 <= i < |ps| ==> (ps[i].db.Some? <==> i < |query|) && (ps[i].form.Some? <==> i < |forms|)
    ensures forall i :: 0 <= i < |ps| && i < |query| ==> ps[i].db.value == query[i]
    ensures forall i :: 0 <= i < |ps| && i < |forms| ==> ps[i].form.value == forms[i]
  {
    seq(Max(|query|, |forms|), i requires 0 <= i =>
      Pair(if i < |query| then Some(query[i]) else None, if i < |forms| then Some(forms[i]) else None))
  }

  /** The stored side of `pairs` is `query`, in order, then nothing. */
  predicate Aligned(pairs: seq<Pair>, query: seq<Row>) {
    && |query| <= |pairs|
    && (forall i :: 0 <= i < |pairs| ==> (pairs[i].db.Some? <==> i < |query|))
    && (forall i :: 0 <= i < |query| ==> pairs[i].db.value == query[i])
  }

  /** The stored row of a pair, if it has one. */
  function Stored(p: Pair): seq<Row> {
    if p.db.Some? then [p.db.value] else []
  }

  /** The stored rows of a sequence of pairs, in order. */
  function DbRows(pairs: seq<Pair>): seq<Row>
    decreases |pairs|
  {
    if pairs == [] then [] else DbRows(pairs[..|pairs| - 1]) + Stored(pairs[|pairs| - 1])
  }

  /** Unzipping the stored side of `zip_longest` gives back the query: every stored row
      is paired exactly once, in order. */
  lemma {:induction false} ZipLongestPairsEveryRow(query: seq<Row>, forms: seq<Cleaned>, k: nat)
    requires k <= Max(|query|, |forms|)
    ensures DbRows(ZipLongest(query, forms)[..k]) == query[..if k < |query| then k else |query|]
  {
    var ps := ZipLongest(query, forms);
    if k > 0 {
      ZipLongestPairsEveryRow(query, forms, k - 1);
      assert ps[..k][..k - 1] == ps[..k - 1] && ps[..k][k - 1] == ps[k - 1];
      assert DbRows(ps[..k]) == DbRows(ps[..k - 1]) + Stored(ps[k - 1]);
      if k <= |query| {
        assert Stored(ps[k - 1]) == [query[k - 1]];
        assert query[..k] == query[..k - 1] + [query[k - 1]];
      } else {
        assert Stored(ps[k - 1]) == [];
      }
    }
  }

  /** The cleaned data of a form, `{}` for the fill value. */
  function CleanedOf(form: Option<Cleaned>): Cleaned {
    if form.Some? then form.value else map[]
  }

  /** What `_to_database` does with one pair. */
  datatype Action = Skip | Update | Delete | Detach | DetachAndCreate | Create

  /** An action that can be taken for the pair: only a created row lacks a stored row. */
  predicate Fits(p: Pair, a: Action) {
    (a.Create? ==> p.db.None?) && (!a.Skip? && !a.Create? ==> p.db.Some?)
  }

  /** The branch `_to_database` takes for one pair: a stored row with non-empty cleaned
      data is unlinked when `should_delete` accepts the data (detached if joined
      elsewhere, deleted otherwise) and is otherwise updated, or replaced by a new row
      when joined elsewhere; a form without a stored row creates one when its cleaned
      data is non-empty and not DELETE-flagged; everything else is left alone. */
  function Decide(kind: Kind, p: Pair): (a: Action)
    ensures Fits(p, a)
  {
    var cleaned := CleanedOf(p.form);
    if p.db.Some? && cleaned != map[] then
      if ShouldDelete(kind, cleaned) then
        (if p.db.value.shared then Detach else Delete)
      else
        (if p.db.value.shared then DetachAndCreate else Update)
    else if p.db.None? && cleaned != map[] && !Truthy(Get(cleaned, "DELETE", Flag(false))) then Create
    else Skip
  }

  /** The branch taken for a pair follows the hooks: a stored row with non-empty cleaned
      data is unlinked exactly when `should_delete` accepts the data, and is detached
      rather than deleted, or replaced rather than updated, exactly when it is joined
      elsewhere; a stored row with empty data is left alone; a form without a stored row
      creates one exactly when its data is non-empty and not DELETE-flagged. */
  lemma DecideFollowsHooks(kind: Kind, p: Pair)
    ensures var a, c := Decide(kind, p), CleanedOf(p.form);
      && (p.db.Some? && c != map[] ==>
            && (a.Delete? || a.Detach? <==> ShouldDelete(kind, c))
            && (a.Detach? || a.DetachAndCreate? <==> p.db.value.shared)
            && !a.Skip? && !a.Create?)
      && (p.db.Some? && c == map[] ==> a.Skip?)
      && (p.db.None? ==> (a.Create? <==> c != map[] && !Truthy(Get(c, "DELETE", Flag(false)))) && (a.Skip? || a.Create?))
  {
  }

  /** The rows a pair leaves linked: the stored row, updated by `pre_update` when the
      action is an update; none when it is unlinked or there is no stored row. */
  function KeptPart(kind: Kind, p: Pair, a: Action): seq<Row> {
    if p.db.None? then []
    else if a.Skip? then [p.db.value]
    else if a.Update? then [p.db.value.(columns := PreUpdate(kind, p.db.value.columns, CleanedOf(p.form)))]
    else []
  }

  /** The stored row a pair unlinks from this request but keeps for its other joins. */
  function DetachedPart(p: Pair, a: Action): seq<Row> {
    if p.db.Some? && (a.Detach? || a.DetachAndCreate?) then [p.db.value] else []
  }

  /** The stored row a pair deletes. */
  function DeletedPart(p: Pair, a: Action): seq<Row> {
    if p.db.Some? && a.Delete? then [p.db.value] else []
  }

  /** The keyword arguments of the row a pair creates, if it creates one. */
  function MadePart(kind: Kind, p: Pair, a: Action): seq<Cleaned> {
    if a.Create? || a.DetachAndCreate? then [PreCreate(kind, CleanedOf(p.form))] else []
  }

  /** Rows made from keyword arguments in order, taking fresh ids from `nextId` on and
      joined to this request only. */
  function Numbered(made: seq<Cleaned>, nextId: nat): (rows: seq<Row>)
    ensures |rows| == |made|
  {
    seq(|made|, j requires 0 <= j < |made| => Row(nextId + j, made[j], false))
  }

  /** The row `getattr(obj, join).create(**pre_create(...))` adds, with the fresh id `id`. */
  function CreatedPart(kind: Kind, p: Pair, a: Action, id: nat): seq<Row> {
    Numbered(MadePart(kind, p, a), id)
  }

  /** Numbering more rows continues the ids where the others stop. */
  lemma NumberedAppend(made: seq<Cleaned>, more: seq<Cleaned>, nextId: nat)
    ensures Numbered(made + more, nextId) == Numbered(made, nextId) + Numbered(more, nextId + |made|)
  {
  }

  /** Numbering one set of keyword arguments gives one row with that id. */
  lemma NumberedOne(c: Cleaned, id: nat)
    ensures Numbered([c], id) == [Row(id, c, false)]
  {
  }

  /** Numbering a prefix gives a prefix. */
  lemma NumberedPrefix(early: seq<Cleaned>, late: seq<Cleaned>, nextId: nat)
    requires early <= late
    ensures Numbered(early, nextId) <= Numbered(late, nextId)
  {
  }

  /** The rows the loop over `pairs` leaves linked, in order. */
  function Kept(kind: Kind, pairs: seq<Pair>): seq<Row>
    decreases |pairs|
  {
    if pairs == [] then []
    else
      var last := pairs[|pairs| - 1];
      Kept(kind, pairs[..|pairs| - 1]) + KeptPart(kind, last, Decide(kind, last))
  }

  /** The rows the loop over `pairs` unlinks but keeps, in order. */
  function Detached(kind: Kind, pairs: seq<Pair>): seq<Row>
    decreases |pairs|
  {
    if pairs == [] then []
    else
      var last := pairs[|pairs| - 1];
      Detached(kind, pairs[..|pairs| - 1]) + DetachedPart(last, Decide(kind, last))
  }

  /** The rows the loop over `pairs` deletes, in order. */
  function Deleted(kind: Kind, pairs: seq<Pair>): seq<Row>
    decreases |pairs|
  {
    if pairs == [] then []
    else
      var last := pairs[|pairs| - 1];
      Deleted(kind, pairs[..|pairs| - 1]) + DeletedPart(last, Decide(kind, last))
  }

  /** The keyword arguments of the rows the loop over `pairs` creates, in order. */
  function Made(kind: Kind, pairs: seq<Pair>): seq<Cleaned>
    decreases |pairs|
  {
    if pairs == [] then []
    else
      var last := pairs[|pairs| - 1];
      Made(kind, pairs[..|pairs| - 1]) + MadePart(kind, last, Decide(kind, last))
  }

  /** The rows the loop over `pairs` creates, in order, numbered from `nextId`. */
  function Created(kind: Kind, pairs: seq<Pair>, nextId: nat): seq<Row> {
    Numbered(Made(kind, pairs), nextId)
  }

  /** The effect of `_to_database` so far: the rows still linked, in order; the rows
      unlinked but kept for their other joins; the rows deleted; the rows created, in
      order; and the next fresh row id. */
  datatype Acc = Acc(kept: seq<Row>, detached: seq<Row>, deleted: seq<Row>, created: seq<Row>, nextId: nat)

  function Start(nextId: nat): Acc {
    Acc([], [], [], [], nextId)
  }

  /** The effect of taking action `a` for one pair. */
  function Apply(kind: Kind, acc: Acc, p: Pair, a: Action): Acc {
    var made := CreatedPart(kind, p, a, acc.nextId);
    Acc(acc.kept + KeptPart(kind, p, a), acc.detached + DetachedPart(p, a), acc.deleted + DeletedPart(p, a),
        acc.created + made, acc.nextId + |made|)
  }

  /** The effect of the whole loop over `pairs` after the effect `start`. */
  function Run(kind: Kind, pairs: seq<Pair>, start: Acc): Acc {
    var made := Created(kind, pairs, start.nextId);
    Acc(start.kept + Kept(kind, pairs), start.detached + Detached(kind, pairs),
        start.deleted + Deleted(kind, pairs), start.created + made, start.nextId + |made|)
  }

  lemma Assoc(x: seq<Row>, y: seq<Row>, z: seq<Row>)
    ensures x + y + z == x + (y + z)
  {
  }

  /** The lists after position `k` extend those before it by the pair's parts. */
  lemma ProjectionsStep(kind: Kind, pairs: seq<Pair>, k: nat)
    requires k < |pairs|
    ensures var p, a := pairs[k], Decide(kind, pairs[k]);
      && Kept(kind, pairs[..k + 1]) == Kept(kind, pairs[..k]) + KeptPart(kind, p, a)
      && Detached(kind, pairs[..k + 1]) == Detached(kind, pairs[..k]) + DetachedPart(p, a)
      && Deleted(kind, pairs[..k + 1]) == Deleted(kind, pairs[..k]) + DeletedPart(p, a)
  {
    assert pairs[..k + 1][..k] == pairs[..k];
    assert pairs[..k + 1][k] == pairs[k];
  }

  /** The keyword arguments after position `k` extend those before it by the pair's. */
  lemma MadeStep(kind: Kind, pairs: seq<Pair>, k: nat)
    requires k < |pairs|
    ensures Made(kind, pairs[..k + 1]) == Made(kind, pairs[..k]) + MadePart(kind, pairs[k], Decide(kind, pairs[k]))
  {
    assert pairs[..k + 1][..k] == pairs[..k];
    assert pairs[..k + 1][k] == pairs[k];
  }

  /** The rows created up to position `k` extend those created before it by the row
      the pair there creates, if any, numbered next. */
  lemma CreatedStep(kind: Kind, pairs: seq<Pair>, k: nat, nextId: nat)
    requires k < |pairs|
    ensures var made := Created(kind, pairs[..k], nextId);
      Created(kind, pairs[..k + 1], nextId) == made + CreatedPart(kind, pairs[k], Decide(kind, pairs[k]), nextId + |made|)
  {
    var early := Made(kind, pairs[..k]);
    MadeStep(kind, pairs, k);
    NumberedAppend(early, MadePart(kind, pairs[k], Decide(kind, pairs[k])), nextId);
  }

  /** One more iteration of the loop is one more `Apply`. */
  lemma RunStep(kind: Kind, pairs: seq<Pair>, k: nat, start: Acc)
    requires k < |pairs|
    ensures Run(kind, pairs[..k + 1], start) == Apply(kind, Run(kind, pairs[..k], start), pairs[k], Decide(kind, pairs[k]))
  {
    var p, a := pairs[k], Decide(kind, pairs[k]);
    var before, after := Run(kind, pairs[..k], start), Run(kind, pairs[..k + 1], start);
    var made := Created(kind, pairs[..k], start.nextId);
    var part := CreatedPart(kind, p, a, before.nextId);
    ProjectionsStep(kind, pairs, k);
    CreatedStep(kind, pairs, k, start.nextId);
    Assoc(start.kept, Kept(kind, pairs[..k]), KeptPart(kind, p, a));
    Assoc(start.detached, Detached(kind, pairs[..k]), DetachedPart(p, a));
    Assoc(start.deleted, Deleted(kind, pairs[..k]), DeletedPart(p, a));
    Assoc(start.created, made, part);
    assert after.kept == before.kept + KeptPart(kind, p, a);
    assert after.detached == before.detached + DetachedPart(p, a);
    assert after.deleted == before.deleted + DeletedPart(p, a);
    assert after.created == before.created + part;
    assert after.nextId == before.nextId + |part|;
  }

  /** `trace` holds the effect after each position of the loop: each entry is the one
      before it with the action for that position applied. The quantifier is triggered by
      the decision for a position, so a proof meets it only where it takes that decision. */
  predicate Steps(kind: Kind, pairs: seq<Pair>, trace: seq<Acc>) {
    && |trace| == |pairs| + 1
    && forall k {:trigger Decide(kind, pairs[k])} :: 0 <= k < |pairs| ==>
         trace[k + 1] == Apply(kind, trace[k], pairs[k], Decide(kind, pairs[k]))
  }

  /** The effect of the loop after each of its positions, from `start`. */
  function Trace(kind: Kind, pairs: seq<Pair>, start: Acc): (trace: seq<Acc>)
    ensures |trace| == |pairs| + 1
  {
    seq(|pairs| + 1, k requires 0 <= k <= |pairs| => Run(kind, pairs[..k], start))
  }

  /** The trace starts with nothing done, takes one `Apply` per position and ends with
      the whole loop's lists. */
  lemma TraceSteps(kind: Kind, pairs: seq<Pair>, nextId: nat)
    ensures var trace, made := Trace(kind, pairs, Start(nextId)), Created(kind, pairs, nextId);
      && trace[0] == Start(nextId)
      && Steps(kind, pairs, trace)
      && trace[|pairs|].kept == Kept(kind, pairs) && trace[|pairs|].detached == Detached(kind, pairs)
      && trace[|pairs|].deleted == Deleted(kind, pairs) && trace[|pairs|].created == made
      && trace[|pairs|].nextId == nextId + |made|
  {
    var start := Start(nextId);
    var trace := Trace(kind, pairs, start);
    forall k | 0 <= k < |pairs|
      ensures trace[k + 1] == Apply(kind, trace[k], pairs[k], Decide(kind, pairs[k]))
    {
      RunStep(kind, pairs, k, start);
    }
    assert pairs[..0] == [];
    assert pairs[..|pairs|] == pairs;
    var acc := Run(kind, pairs, start);
    assert acc.kept == [] + Kept(kind, pairs);
    assert acc.detached == [] + Detached(kind, pairs);
    assert acc.deleted == [] + Deleted(kind, pairs);
    assert acc.created == [] + Created(kind, pairs, nextId);
  }

  function Ids(rows: seq<Row>): seq<nat>
    ensures |Ids(rows)| == |rows|
  {
    seq(|rows|, i requires 0 <= i < |rows| => rows[i].id)
  }

  lemma IdsAppend(a: seq<Row>, b: seq<Row>)
    ensures Ids(a + b) == Ids(a) + Ids(b)
  {
  }

  /** The ids of the rows in the three places a stored row can end up. */
  function Placed(kind: Kind, pairs: seq<Pair>): multiset<nat> {
    multiset(Ids(Kept(kind, pairs))) + multiset(Ids(Detached(kind, pairs))) + multiset(Ids(Deleted(kind, pairs)))
  }

  /** One pair puts its stored row, if any, in exactly one place. */
  lemma PartsPlaceStoredRow(kind: Kind, p: Pair, a: Action)
    requires Fits(p, a)
    ensures Ids(KeptPart(kind, p, a)) + Ids(DetachedPart(p, a)) + Ids(DeletedPart(p, a)) == Ids(Stored(p))
  {
    if p.db.Some? {
      var r := p.db.value;
      assert Ids(Stored(p)) == [r.id];
      if a.Skip? || a.Update? {
        var k := KeptPart(kind, p, a);
        assert |k| == 1 && k[0].id == r.id;
        assert Ids(k) == [r.id] && DetachedPart(p, a) == [] && DeletedPart(p, a) == [];
      } else if a.Delete? {
        assert Ids(DeletedPart(p, a)) == [r.id] && KeptPart(kind, p, a) == [] && DetachedPart(p, a) == [];
      } else {
        assert Ids(DetachedPart(p, a)) == [r.id] && KeptPart(kind, p, a) == [] && DeletedPart(p, a) == [];
      }
    } else {
      assert KeptPart(kind, p, a) == [] && DetachedPart(p, a) == [] && DeletedPart(p, a) == [];
    }
  }

  /** The ids one pair places: in its kept, detached and deleted parts. */
  function PartIds(kind: Kind, p: Pair, a: Action): multiset<nat> {
    multiset(Ids(KeptPart(kind, p, a))) + multiset(Ids(DetachedPart(p, a))) + multiset(Ids(DeletedPart(p, a)))
  }

  lemma IdsAppendCount(a: seq<Row>, b: seq<Row>)
    ensures multiset(Ids(a + b)) == multiset(Ids(a)) + multiset(Ids(b))
  {
    IdsAppend(a, b);
  }

  lemma PartIdsAreStored(kind: Kind, p: Pair, a: Action)
    requires Fits(p, a)
    ensures PartIds(kind, p, a) == multiset(Ids(Stored(p)))
  {
    PartsPlaceStoredRow(kind, p, a);
    var x, y, z := Ids(KeptPart(kind, p, a)), Ids(DetachedPart(p, a)), Ids(DeletedPart(p, a));
    assert multiset(x + y + z) == multiset(x) + multiset(y) + multiset(z);
  }

  /** Adding one pair to the loop adds exactly the ids that pair places. */
  lemma PlacedStep(kind: Kind, pairs: seq<Pair>)
    requires pairs != []
    ensures Placed(kind, pairs) == Placed(kind, pairs[..|pairs| - 1])
      + PartIds(kind, pairs[|pairs| - 1], Decide(kind, pairs[|pairs| - 1]))
  {
    var init := pairs[..|pairs| - 1];
    var p := pairs[|pairs| - 1];
    var a := Decide(kind, p);
    IdsAppendCount(Kept(kind, init), KeptPart(kind, p, a));
    IdsAppendCount(Detached(kind, init), DetachedPart(p, a));
    IdsAppendCount(Deleted(kind, init), DeletedPart(p, a));
  }

  /** Every stored row ends the loop in exactly one place: still linked, detached, or
      deleted; no row is lost or counted twice. */
  lemma {:induction false} RunAccountsForEveryRow(kind: Kind, pairs: seq<Pair>)
    ensures Placed(kind, pairs) == multiset(Ids(DbRows(pairs)))
    decreases |pairs|
  {
    if pairs != [] {
      var init := pairs[..|pairs| - 1];
      var p := pairs[|pairs| - 1];
      RunAccountsForEveryRow(kind, init);
      PlacedStep(kind, pairs);
      IdsAppendCount(DbRows(init), Stored(p));
      PartIdsAreStored(kind, p, Decide(kind, p));
    } else {
      assert Ids([]) == [];
    }
  }

  /** A row joined to anything else is never deleted, only detached; a row joined only
      to this request is never merely detached. */
  lemma {:induction false} SharedRowsAreNeverDeleted(kind: Kind, pairs: seq<Pair>)
    ensures forall r :: r in Deleted(kind, pairs) ==> !r.shared
    ensures forall r :: r in Detached(kind, pairs) ==> r.shared
    decreases |pairs|
  {
    if pairs != [] {
      SharedRowsAreNeverDeleted(kind, pairs[..|pairs| - 1]);
    }
  }

  /** A stored row with no form adds itself, unchanged, to the kept rows. */
  lemma KeepsRowWithoutForm(kind: Kind, pairs: seq<Pair>, k: nat)
    requires k < |pairs|
    requires pairs[k].db.Some? && pairs[k].form.None?
    ensures Kept(kind, pairs[..k + 1]) == Kept(kind, pairs[..k]) + [pairs[k].db.value]
  {
    assert pairs[..k + 1][..k] == pairs[..k];
    assert pairs[..k + 1][k] == pairs[k];
    assert Decide(kind, pairs[k]).Skip?;
  }

  /** `rows` ends with the stored rows of positions `n` to `k`, in order. */
  predicate EndsWithStored(rows: seq<Row>, pairs: seq<Pair>, n: nat, k: nat)
    requires n <= k <= |pairs|
  {
    |rows| >= k - n && forall j :: n <= j < k ==> pairs[j].db.Some? && rows[|rows| - (k - j)] == pairs[j].db.value
  }

  /** Appending the stored row of position `k - 1` extends the run of stored rows. */
  lemma EndsWithStoredExtend(rows: seq<Row>, pairs: seq<Pair>, n: nat, k: nat)
    requires n < k <= |pairs| && pairs[k - 1].db.Some?
    requires EndsWithStored(rows, pairs, n, k - 1)
    ensures EndsWithStored(rows + [pairs[k - 1].db.value], pairs, n, k)
  {
    var longer := rows + [pairs[k - 1].db.value];
    forall j | n <= j < k ensures longer[|longer| - (k - j)] == pairs[j].db.value {
      if j < k - 1 {
        assert longer[|longer| - (k - j)] == rows[|rows| - (k - 1 - j)];
      }
    }
  }

  /** Positions `n` to `k` holding stored rows without forms leave those rows, in order,
      at the end of the kept rows. */
  lemma {:induction false} TrailingRowsKept(kind: Kind, pairs: seq<Pair>, n: nat, k: nat)
    requires n <= k <= |pairs|
    requires forall j :: n <= j < k ==> pairs[j].db.Some? && pairs[j].form.None?
    ensures EndsWithStored(Kept(kind, pairs[..k]), pairs, n, k)
    decreases k
  {
    if k > n {
      TrailingRowsKept(kind, pairs, n, k - 1);
      KeepsRowWithoutForm(kind, pairs, k - 1);
      EndsWithStoredExtend(Kept(kind, pairs[..k - 1]), pairs, n, k);
    }
  }

  /** Stored rows beyond the submitted forms stay linked, unchanged and in order at the
      end of the kept rows: submitting fewer forms never deletes anything. */
  lemma RowsWithoutFormsAreKept(kind: Kind, query: seq<Row>, forms: seq<Cleaned>)
    requires |forms| <= |query|
    ensures var kept := Kept(kind, ZipLongest(query, forms));
      |kept| >= |query| - |forms| && kept[|kept| - (|query| - |forms|)..] == query[|forms|..]
  {
    var ps := ZipLongest(query, forms);
    TrailingRowsKept(kind, ps, |forms|, |query|);
    assert ps[..|query|] == ps;
    var kept, m := Kept(kind, ps), |query| - |forms|;
    forall j | 0 <= j < m ensures kept[|kept| - m..][j] == query[|forms|..][j] {
      assert kept[|kept| - m + j] == ps[|forms| + j].db.value;
    }
  }

  /** The lists of an earlier iteration are prefixes of the lists of a later one. */
  lemma {:induction false} RunOnlyAppends(kind: Kind, pairs: seq<Pair>, j: nat)
    requires j <= |pairs|
    ensures Kept(kind, pairs[..j]) <= Kept(kind, pairs)
    ensures Detached(kind, pairs[..j]) <= Detached(kind, pairs)
    ensures Deleted(kind, pairs[..j]) <= Deleted(kind, pairs)
    ensures Made(kind, pairs[..j]) <= Made(kind, pairs)
    decreases |pairs|
  {
    if j < |pairs| {
      var init := pairs[..|pairs| - 1];
      assert init[..j] == pairs[..j];
      RunOnlyAppends(kind, init, j);
    } else {
      assert pairs[..j] == pairs;
    }
  }

  /** Where a pair's stored row is found after action `a`: left linked as it was,
      linked with the hook's update, deleted, or detached with a successor created
      from `pre_create`. */
  predicate Placement(kind: Kind, acc: Acc, p: Pair, a: Action)
    requires p.db.Some?
  {
    var r, c := p.db.value, CleanedOf(p.form);
    match a
    case Skip => r in acc.kept
    case Update => r.(columns := PreUpdate(kind, r.columns, c)) in acc.kept
    case Delete => r in acc.deleted
    case Detach => r in acc.detached
    case DetachAndCreate =>
      r in acc.detached && exists j :: 0 <= j < |acc.created| && acc.created[j].columns == PreCreate(kind, c)
    case Create => false
  }

  lemma ApplyPlacesRow(kind: Kind, acc: Acc, p: Pair, a: Action)
    requires Fits(p, a) && p.db.Some?
    ensures Placement(kind, Apply(kind, acc, p, a), p, a)
  {
    var next := Apply(kind, acc, p, a);
    if a.DetachAndCreate? {
      assert next.created[|acc.created|].columns == PreCreate(kind, CleanedOf(p.form));
    }
  }

  lemma PlacementPersists(kind: Kind, early: Acc, late: Acc, p: Pair, a: Action)
    requires p.db.Some?
    requires early.kept <= late.kept && early.detached <= late.detached
    requires early.deleted <= late.deleted && early.created <= late.created
    requires Placement(kind, early, p, a)
    ensures Placement(kind, late, p, a)
  {
    if a.DetachAndCreate? {
      var j :| 0 <= j < |early.created| && early.created[j].columns == PreCreate(kind, CleanedOf(p.form));
      assert late.created[j] == early.created[j];
    }
  }

  /** Where the stored row at position `i` ends up, following the branch `Decide` takes
      for its pair (see `Placement`). */
  lemma RowFate(kind: Kind, pairs: seq<Pair>, i: nat, nextId: nat)
    requires i < |pairs| && pairs[i].db.Some?
    ensures Placement(kind, Run(kind, pairs, Start(nextId)), pairs[i], Decide(kind, pairs[i]))
  {
    var start := Start(nextId);
    RunOnlyAppends(kind, pairs, i + 1);
    NumberedPrefix(Made(kind, pairs[..i + 1]), Made(kind, pairs), nextId);
    RunStep(kind, pairs, i, start);
    ApplyPlacesRow(kind, Run(kind, pairs[..i], start), pairs[i], Decide(kind, pairs[i]));
    PlacementPersists(kind, Run(kind, pairs[..i + 1], start), Run(kind, pairs, start), pairs[i], Decide(kind, pairs[i]));
  }

  /** With distinct row ids, the places of `RowFate` exclude each other: a deleted row
      is neither linked nor detached, and so on. */
  lemma RowFateIsExclusive(kind: Kind, query: seq<Row>, forms: seq<Cleaned>, i: nat)
    requires forall a, b :: 0 <= a < b < |query| ==> query[a].id != query[b].id
    requires i < |query|
    ensures var ps := ZipLongest(query, forms);
      var inKept, inDetached, inDeleted :=
        query[i].id in Ids(Kept(kind, ps)), query[i].id in Ids(Detached(kind, ps)), query[i].id in Ids(Deleted(kind, ps));
      (inKept && !inDetached && !inDeleted) || (!inKept && inDetached && !inDeleted) || (!inKept && !inDetached && inDeleted)
  {
    var ps := ZipLongest(query, forms);
    RunAccountsForEveryRow(kind, ps);
    ZipLongestPairsEveryRow(query, forms, |ps|);
    assert ps[..|ps|] == ps;
    assert query[..|query|] == query;
    var id := query[i].id;
    assert multiset(Ids(query))[id] == 1 by {
      assert Ids(query)[i] == id;
      IdOccursOnce(query, i);
    }
    assert Placed(kind, ps)[id] == 1;
  }

  /** In a list of rows with distinct ids, the id at position `i` occurs once. */
  lemma {:induction false} IdOccursOnce(rows: seq<Row>, i: nat)
    requires forall a, b :: 0 <= a < b < |rows| ==> rows[a].id != rows[b].id
    requires i < |rows|
    ensures multiset(Ids(rows))[rows[i].id] == 1
    decreases |rows|
  {
    var last := |rows| - 1;
    IdsAppend(rows[..last], [rows[last]]);
    assert rows == rows[..last] + [rows[last]];
    if i < last {
      IdOccursOnce(rows[..last], i);
    } else {
      assert rows[i].id !in Ids(rows[..last]);
    }
  }

  /** When every form cleans to `{"DELETE": True}` (what a marked formset produces) and
      there is a form for every stored row, nothing stays linked and nothing is created. */
  lemma {:induction false} DeletedFormsUnlinkEveryRow(formsetMarked: bool, query: seq<Row>, forms: seq<Cleaned>, k: nat)
    requires forall i :: 0 <= i < |forms| ==> forms[i] == DeleteOnly
    requires |query| <= |forms| && k <= |forms|
    ensures var kind, ps := OtherContacts(formsetMarked), ZipLongest(query, forms)[..k];
      Kept(kind, ps) == [] && Made(kind, ps) == []
  {
    var kind := OtherContacts(formsetMarked);
    var ps := ZipLongest(query, forms);
    if k > 0 {
      DeletedFormsUnlinkEveryRow(formsetMarked, query, forms, k - 1);
      assert ps[..k][..k - 1] == ps[..k - 1];
      assert ps[k - 1].form == Some(DeleteOnly);
      assert "DELETE" in DeleteOnly;
    }
  }

  /** The rows a request is joined to through one formset's join, and the store's
      record of what `_to_database` unlinked. */
  class JoinStore {
    /** The request's rows through the join, oldest first (`order_by("created_at")`). */
    var linked: seq<Row>
    /** Rows removed from this request's join but kept for their other joins. */
    var detached: seq<Row>
    var deleted: seq<Row>
    var nextId: nat
    /** How many times the request itself was saved. */
    var requestSaves: nat

    constructor(linked: seq<Row>, nextId: nat)
      ensures this.linked == linked && this.nextId == nextId
      ensures detached == [] && deleted == [] && requestSaves == 0
    {
      this.linked := linked;
      this.nextId := nextId;
      detached := [];
      deleted := [];
      requestSaves := 0;
    }

    /** `RegistrarFormSet._to_database`: an invalid formset changes nothing; a valid one
        saves the request, then walks `zip_longest(query, forms)` and updates, deletes,
        detaches and creates rows as `Run` describes. */
    method SaveFormset(kind: Kind, valid: bool, forms: seq<Cleaned>)
      modifies this
      ensures !valid ==> unchanged(this)
      ensures valid ==>
        var pairs := ZipLongest(old(linked), forms);
        var created := Created(kind, pairs, old(nextId));
        && linked == Kept(kind, pairs) + created
        && detached == old(detached) + Detached(kind, pairs)
        && deleted == old(deleted) + Deleted(kind, pairs)
        && nextId == old(nextId) + |created|
        && requestSaves == old(requestSaves) + 1
    {
      var query := linked;
      var pairs := ZipLongest(query, forms);
      if !valid {
        return;
      }
      requestSaves := requestSaves + 1;
      TraceSteps(kind, pairs, nextId);
      Reconcile(kind, pairs, query, Trace(kind, pairs, Start(nextId)));
    }

    /** The stored rows reflect the effect `acc` of the positions before `i`: the kept
        and created rows are linked around the query's rows not yet reached, `pos` is the
        position of the next of those, and the unlinked rows are recorded. */
    ghost predicate Mirrors(query: seq<Row>, i: nat, pos: nat, acc: Acc, detached0: seq<Row>, deleted0: seq<Row>)
      reads this
    {
      && linked == acc.kept + query[if i < |query| then i else |query|..] + acc.created
      && pos == |acc.kept| && nextId == acc.nextId
      && detached == detached0 + acc.detached && deleted == deleted0 + acc.deleted
    }

    /** The loop of `_to_database` over `pairs`, the positions of `zip_longest(query, forms)`
        with `query` the rows linked on entry; `trace` is the effect after each position. */
    method Reconcile(kind: Kind, pairs: seq<Pair>, query: seq<Row>, ghost trace: seq<Acc>)
      requires Aligned(pairs, query)
      requires Steps(kind, pairs, trace) && trace[0] == Start(nextId)
      requires linked == query
      modifies this
      ensures var acc := trace[|pairs|];
        && linked == acc.kept + acc.created
        && detached == old(detached) + acc.detached
        && deleted == old(deleted) + acc.deleted
        && nextId == acc.nextId
      ensures requestSaves == old(requestSaves)
    {
      ghost var detached0, deleted0 := detached, deleted;
      var pos := 0;
      var i := 0;
      while i < |pairs|
        invariant 0 <= i <= |pairs|
        invariant Mirrors(query, i, pos, trace[i], detached0, deleted0)
        invariant requestSaves == old(requestSaves)
      {
        pos := Iterate(kind, pairs, query, i, pos, trace, detached0, deleted0);
        i := i + 1;
      }
      DropEmpty(trace[i].kept, query[if i < |query| then i else |query|..], trace[i].created);
    }

    /** The body of the loop for position `i`: the pair there holds the query's row `i`,
        if any, which sits at position `pos` among the linked rows. */
    method Iterate(kind: Kind, pairs: seq<Pair>, query: seq<Row>, i: nat, pos: nat, ghost trace: seq<Acc>,
                   ghost detached0: seq<Row>, ghost deleted0: seq<Row>) returns (pos': nat)
      requires i < |pairs| && Aligned(pairs, query) && Steps(kind, pairs, trace)
      requires Mirrors(query, i, pos, trace[i], detached0, deleted0)
      modifies this
      ensures Mirrors(query, i + 1, pos', trace[i + 1], detached0, deleted0)
      ensures requestSaves == old(requestSaves)
    {
      var p := pairs[i];
      var a := Decide(kind, p);
      ghost var acc := trace[i];
      ghost var rest := EnterPair(query, i, p, acc.kept, acc.created, linked);
      pos' := ApplyPair(kind, p, a, pos, acc.kept, rest, acc.created);
      LeavePair(kind, acc, p, a, rest, linked, detached0, detached, deleted0, deleted);
    }

    /** One iteration of the loop: carry out action `a` for pair `p` on the stored rows,
        where `pos` is the position of the pair's stored row among the linked rows,
        between the rows `kept` so far and the query's `rest`. */
    method ApplyPair(kind: Kind, p: Pair, a: Action, pos: nat, ghost kept: seq<Row>, ghost rest: seq<Row>,
                     ghost created: seq<Row>) returns (pos': nat)
      requires Fits(p, a)
      requires linked == kept + (if p.db.Some? then [p.db.value] else []) + rest + created
      requires pos == |kept|
      modifies this
      ensures linked == kept + KeptPart(kind, p, a) + rest + created + CreatedPart(kind, p, a, old(nextId))
      ensures pos' == pos + |KeptPart(kind, p, a)|
      ensures detached == old(detached) + DetachedPart(p, a) && deleted == old(deleted) + DeletedPart(p, a)
      ensures nextId == old(nextId) + |CreatedPart(kind, p, a, old(nextId))|
      ensures requestSaves == old(requestSaves)
    {
      var cleaned := CleanedOf(p.form);
      pos' := pos;
      match a {
        case Skip =>
          if p.db.Some? {
            pos' := pos + 1;
          }
        case Update =>
          var updated := p.db.value.(columns := PreUpdate(kind, p.db.value.columns, cleaned));
          ReplaceAt(linked, kept, p.db.value, updated, rest, created);
          linked := linked[pos := updated];
          pos' := pos + 1;
        case Delete =>
          RemoveAt(linked, kept, p.db.value, rest, created);
          linked := linked[..pos] + linked[pos + 1..];
          deleted := deleted + [p.db.value];
        case Detach =>
          RemoveAt(linked, kept, p.db.value, rest, created);
          linked := linked[..pos] + linked[pos + 1..];
          detached := detached + [p.db.value];
        case DetachAndCreate =>
          var row := Row(nextId, PreCreate(kind, cleaned), false);
          NumberedOne(PreCreate(kind, cleaned), nextId);
          RemoveAt(linked, kept, p.db.value, rest, created);
          linked := linked[..pos] + linked[pos + 1..] + [row];
          detached := detached + [p.db.value];
          nextId := nextId + 1;
        case Create =>
          var row := Row(nextId, PreCreate(kind, cleaned), false);
          NumberedOne(PreCreate(kind, cleaned), nextId);
          linked := linked + [row];
          nextId := nextId + 1;
      }
    }
  }

  lemma RemoveAt(l: seq<Row>, kept: seq<Row>, r: Row, rest: seq<Row>, created: seq<Row>)
    requires l == kept + [r] + rest + created
    ensures l[..|kept|] + l[|kept| + 1..] == kept + rest + created
  {
    assert l[..|kept|] == kept;
    assert l[|kept| + 1..] == rest + created;
  }

  lemma ReplaceAt(l: seq<Row>, kept: seq<Row>, r: Row, s: Row, rest: seq<Row>, created: seq<Row>)
    requires l == kept + [r] + rest + created
    ensures l[|kept| := s] == kept + [s] + rest + created
  {
  }

  /** The query's row `i`, if any, is the first of the rows not yet reached; the rest
      follow it. */
  lemma EnterPair(query: seq<Row>, i: nat, p: Pair, kept: seq<Row>, created: seq<Row>, linked: seq<Row>)
    returns (rest: seq<Row>)
    requires p.db.Some? <==> i < |query|
    requires i < |query| ==> p.db.value == query[i]
    requires linked == kept + query[if i < |query| then i else |query|..] + created
    ensures rest == query[if i + 1 < |query| then i + 1 else |query|..]
    ensures linked == kept + (if p.db.Some? then [p.db.value] else []) + rest + created
  {
    rest := query[if i + 1 < |query| then i + 1 else |query|..];
    if i < |query| {
      assert query[i..] == [query[i]] + rest;
    }
  }

  /** After one pair, the stored rows reflect the effect of one more `Apply`. */
  lemma LeavePair(kind: Kind, acc: Acc, p: Pair, a: Action, rest: seq<Row>, linked: seq<Row>,
                  detached0: seq<Row>, detached: seq<Row>, deleted0: seq<Row>, deleted: seq<Row>)
    requires Fits(p, a)
    requires linked == acc.kept + KeptPart(kind, p, a) + rest + acc.created + CreatedPart(kind, p, a, acc.nextId)
    requires detached == detached0 + acc.detached + DetachedPart(p, a)
    requires deleted == deleted0 + acc.deleted + DeletedPart(p, a)
    ensures var next := Apply(kind, acc, p, a);
      && linked == next.kept + rest + next.created
      && detached == detached0 + next.detached && deleted == deleted0 + next.deleted
      && next.nextId == acc.nextId + |CreatedPart(kind, p, a, acc.nextId)|
      && |next.kept| == |acc.kept| + |KeptPart(kind, p, a)|
  {
    var k, c := KeptPart(kind, p, a), CreatedPart(kind, p, a, acc.nextId);
    var dt, dl := DetachedPart(p, a), DeletedPart(p, a);
    assert Apply(kind, acc, p, a) == Acc(acc.kept + k, acc.detached + dt, acc.deleted + dl, acc.created + c, acc.nextId + |c|);
    Regroup(acc.kept, k, rest, acc.created, c);
    Assoc(detached0, acc.detached, dt);
    Assoc(deleted0, acc.deleted, dl);
  }

  lemma DropEmpty(x: seq<Row>, empty: seq<Row>, y: seq<Row>)
    requires |empty| == 0
    ensures x + empty + y == x + y
  {
  }

  lemma Regroup(kept: seq<Row>, k: seq<Row>, rest: seq<Row>, created: seq<Row>, c: seq<Row>)
    ensures kept + k + rest + created + c == (kept + k) + rest + (created + c)
  {
  }

  /** The other-contacts formset, holding its forms. */
  class OtherContactsFormSet {
    var formsetMarked: bool
    const forms: seq<OtherContactsForm>

    constructor(forms: seq<OtherContactsForm>)
      ensures this.forms == forms && !formsetMarked
    {
      this.forms := forms;
      formsetMarked := false;
    }

    /** The hooks this formset passes to `_to_database`. */
    function Kind(): Kind
      reads this
    {
      OtherContacts(formsetMarked)
    }

    /** `mark_formset_for_deletion`: marks the formset and every one of its forms,
        leaving their data and errors alone. */
    method MarkForDeletion()
      modifies this, set f | f in forms
      ensures formsetMarked
      ensures forall i :: 0 <= i < |forms| ==> forms[i].markedForDeletion
      ensures forall i :: 0 <= i < |forms| ==>
        forms[i].cleanedData == old(forms[i].cleanedData) && forms[i].errors == old(forms[i].errors)
    {
      formsetMarked := true;
      var i := 0;
      while i < |forms|
        invariant 0 <= i <= |forms|
        invariant formsetMarked
        invariant forall j :: 0 <= j < i ==> forms[j].markedForDeletion
        invariant forall j :: 0 <= j < |forms| ==>
          forms[j].cleanedData == old(forms[j].cleanedData) && forms[j].errors == old(forms[j].errors)
      {
        forms[i].MarkForDeletion();
        i := i + 1;
      }
    }

    /** Cleaning every form: a form marked (by the formset or on its own) or
        DELETE-flagged cleans to `{"DELETE": True}`, any other form to its data. */
    method CleanForms() returns (cleaned: seq<Cleaned>)
      modifies set f | f in forms
      ensures |cleaned| == |forms|
      ensures forall i :: 0 <= i < |forms| ==>
        forms[i].markedForDeletion == old(forms[i].markedForDeletion) && forms[i].cleanedData == old(forms[i].cleanedData)
      ensures forall i :: 0 <= i < |forms| ==>
        cleaned[i] == if DeletingContactForm(forms[i].markedForDeletion, forms[i].cleanedData) then DeleteOnly else forms[i].cleanedData
      ensures forall i :: 0 <= i < |forms| && DeletingContactForm(forms[i].markedForDeletion, forms[i].cleanedData) ==>
        && forms[i].errors.Keys == old(forms[i].errors).Keys - (set f | f in forms[i].fieldNames)
        && forall k :: k in forms[i].errors ==> k in old(forms[i].errors) && forms[i].errors[k] == old(forms[i].errors)[k]
      ensures forall i :: 0 <= i < |forms| && !DeletingContactForm(forms[i].markedForDeletion, forms[i].cleanedData) ==>
        forms[i].errors == old(forms[i].errors)
    {
      cleaned := [];
      var i := 0;
      while i < |forms|
        invariant 0 <= i <= |forms| && |cleaned| == i
        invariant forall j :: 0 <= j < |forms| ==>
          forms[j].markedForDeletion == old(forms[j].markedForDeletion) && forms[j].cleanedData == old(forms[j].cleanedData)
        invariant forall j :: 0 <= j < i ==>
          cleaned[j] == if DeletingContactForm(forms[j].markedForDeletion, forms[j].cleanedData) then DeleteOnly else forms[j].cleanedData
        invariant forall j :: 0 <= j < |forms| ==>
          forms[j].errors == if forms[j] in forms[..i] then CleanedErrors(forms[j], old(forms[j].errors)) else old(forms[j].errors)
      {
        var form := forms[i];
        ghost var before := form.errors;
        var c := form.Clean();
        if DeletingContactForm(form.markedForDeletion, form.cleanedData) {
          var w := WithoutFieldErrors(before, form.fieldNames);
          assert form.errors.Keys == w.Keys;
        }
        assert form.errors == CleanedErrors(form, before);
        assert form.errors == CleanedErrors(form, old(form.errors)) by {
          if form in forms[..i] {
            CleanedErrorsIdempotent(form, old(form.errors));
          }
        }
        assert forms[..i + 1] == forms[..i] + [form];
        cleaned := cleaned + [c];
        i := i + 1;
      }
      assert forms[..i] == forms;
    }

    /** The errors a form is left with once cleaned from `errors`: a deleting form
        loses its field errors, any other form keeps them all. */
    ghost function CleanedErrors(f: OtherContactsForm, errors: map<string, seq<string>>): map<string, seq<string>>
      reads f
    {
      if DeletingContactForm(f.markedForDeletion, f.cleanedData) then WithoutFieldErrors(errors, f.fieldNames) else errors
    }

    /** Cleaning a form a second time drops no further errors. */
    lemma CleanedErrorsIdempotent(f: OtherContactsForm, errors: map<string, seq<string>>)
      ensures CleanedErrors(f, CleanedErrors(f, errors)) == CleanedErrors(f, errors)
    {
    }
  }
}
