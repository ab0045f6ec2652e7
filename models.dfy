/** Helpers of the API server's database models (api-server/models.py):
    related tags of a category or a tag, the objection vote counter, and
    the dictionaries the models serialise to. */
module Models {
  import opened Common
  import Seqs

  // -----------------------------------------------------------------------
  // Rows

  /** A `Tag` row; `title` is its primary key. */
  datatype TagRow = TagRow(
    title: string,
    slug: string,
    wikidataId: Option<string>,
    url: Option<string>,
    description: Option<string>,
    wikipediaTitle: Option<string>,
    aliases: Option<string>,
    labels: Option<string>,
    image: Option<string>)

  datatype PositionRow = PositionRow(value: int, partyName: string, text: Option<string>)

  datatype ThesisRow = ThesisRow(
    id: string,
    title: Option<string>,
    text: Option<string>,
    occasionId: int,
    categorySlugs: seq<string>,
    positions: seq<PositionRow>,
    tags: seq<TagRow>)

  datatype ResultRow = ResultRow(partyName: string, votes: int, pct: nat)

  // -----------------------------------------------------------------------
  // Dictionaries
  //
  // A dictionary is a record with one field per key. For a key that is
  // always written but may hold `None` (Python's `None`, JSON `null`) the
  // field is an `Option`; for a key that is only written under a condition
  // the field is an `Option` too, and `None` means the key is absent. Each
  // record's comment says which of its keys are conditional.

  /** The result of `Tag.to_dict`; `description`, `wikipediaTitle`,
      `aliases`, `labels`, `image`, `thesisCount`, `theses` and
      `relatedTags` are conditional keys. */
  datatype TagDict = TagDict(
    title: string,
    slug: string,
    wikidataId: Option<string>,
    url: Option<string>,
    description: Option<string>,
    wikipediaTitle: Option<string>,
    aliases: Option<seq<string>>,
    labels: Option<seq<string>>,
    image: Option<string>,
    thesisCount: Option<int>,
    theses: Option<seq<string>>,
    relatedTags: Option<seq<RelatedEntry>>)

  /** `{"count": ..., "tag": tags[tag].to_dict()}` under the key `title`. */
  datatype RelatedEntry = RelatedEntry(title: string, count: int, tag: TagDict)

  /** A list stored as one `;`-separated string, present only when it is
      neither null nor empty. */
  predicate HasList(stored: Option<string>) {
    stored.Some? && |stored.value| > 0
  }

  function ListColumn(stored: Option<string>): (r: Option<seq<string>>)
    ensures r.Some? <==> HasList(stored)
    ensures r.Some? ==> |r.value| >= 1 && Join(r.value, ';') == stored.value
    ensures r.Some? ==> forall i :: 0 <= i < |r.value| ==> ';' !in r.value[i]
  {
    if HasList(stored) then
      SplitJoin(stored.value, ';');
      Some(Split(stored.value, ';'))
    else None
  }

  /** `Tag.to_dict`: the four base keys always, every optional column only
      when it is not null, the `;`-separated lists only when non-empty, and
      the three extras only when asked for (`None` = not asked). */
  function TagToDict(tag: TagRow, thesisCount: Option<int>, thesisIds: Option<seq<string>>,
                     related: Option<seq<RelatedEntry>>): (d: TagDict)
    ensures d.title == tag.title && d.slug == tag.slug
    ensures d.aliases.Some? <==> HasList(tag.aliases)
    ensures d.labels.Some? <==> HasList(tag.labels)
    ensures d.aliases.Some? ==> |d.aliases.value| >= 1 && Join(d.aliases.value, ';') == tag.aliases.value
    ensures d.labels.Some? ==> |d.labels.value| >= 1 && Join(d.labels.value, ';') == tag.labels.value
    ensures d.thesisCount == thesisCount && d.theses == thesisIds && d.relatedTags == related
  {
    TagDict(tag.title, tag.slug, tag.wikidataId, tag.url, tag.description, tag.wikipediaTitle,
            ListColumn(tag.aliases), ListColumn(tag.labels), tag.image,
            thesisCount, thesisIds, related)
  }

  /** The plain `tag.to_dict()` nested in other dictionaries. */
  function PlainTagDict(tag: TagRow): TagDict {
    TagToDict(tag, None, None, None)
  }

  /** The row a client can rebuild from a tag dictionary. */
  function TagFromDict(d: TagDict): TagRow {
    TagRow(d.title, d.slug, d.wikidataId, d.url, d.description, d.wikipediaTitle,
           if d.aliases.Some? && |d.aliases.value| >= 1 then Some(Join(d.aliases.value, ';')) else None,
           if d.labels.Some? && |d.labels.value| >= 1 then Some(Join(d.labels.value, ';')) else None,
           d.image)
  }

  /** The row with an empty list column read as null. */
  function NormalizeLists(tag: TagRow): TagRow {
    tag.(aliases := if HasList(tag.aliases) then tag.aliases else None,
         labels := if HasList(tag.labels) then tag.labels else None)
  }

  /** Nothing but the difference between an empty and a null list column
      is lost by serialising a tag. */
  lemma TagDictRoundTrip(tag: TagRow)
    ensures TagFromDict(PlainTagDict(tag)) == NormalizeLists(tag)
  {
  }

  /** An alias list without `;` in its entries survives the trip through
      the database column. */
  lemma AliasesFromList(tag: TagRow, aliases: seq<string>)
    requires |aliases| >= 1 && forall i :: 0 <= i < |aliases| ==> ';' !in aliases[i]
    requires tag.aliases == Some(Join(aliases, ';')) && |Join(aliases, ';')| > 0
    ensures PlainTagDict(tag).aliases == Some(aliases)
  {
    JoinSplit(aliases, ';');
  }

  /** The result of `Position.to_dict`; `text` is a conditional key. */
  datatype PositionDict = PositionDict(value: int, party: string, text: Option<string>)

  /** `Position.to_dict`: `text` present exactly when it is not null. */
  function PositionToDict(p: PositionRow): (d: PositionDict)
    ensures d.value == p.value && d.party == p.partyName
    ensures d.text.Some? <==> p.text.Some?
  {
    PositionDict(p.value, p.partyName, p.text)
  }

  lemma PositionDictRoundTrip(p: PositionRow)
    ensures var d := PositionToDict(p); PositionRow(d.value, d.party, d.text) == p
  {
  }

  /** The result of `Thesis.to_dict`; `text` is a conditional key. */
  datatype ThesisDict = ThesisDict(
    id: string,
    title: Option<string>,
    categories: seq<string>,
    positions: seq<PositionDict>,
    tags: seq<TagDict>,
    occasionId: int,
    text: Option<string>)

  /** `Thesis.to_dict`: `text` only when it is not null, every position
      and tag in its own dictionary, in row order. */
  function ThesisToDict(t: ThesisRow): (d: ThesisDict)
    ensures d.id == t.id && d.title == t.title && d.occasionId == t.occasionId
    ensures d.categories == t.categorySlugs
    ensures |d.positions| == |t.positions| && |d.tags| == |t.tags|
    ensures forall i :: 0 <= i < |t.positions| ==> d.positions[i] == PositionToDict(t.positions[i])
    ensures forall i :: 0 <= i < |t.tags| ==> d.tags[i] == PlainTagDict(t.tags[i])
    ensures d.text.Some? <==> t.text.Some?
  {
    ThesisDict(
      t.id, t.title, t.categorySlugs,
      seq(|t.positions|, i requires 0 <= i < |t.positions| => PositionToDict(t.positions[i])),
      seq(|t.tags|, i requires 0 <= i < |t.tags| => PlainTagDict(t.tags[i])),
      t.occasionId, t.text)
  }

  /** A thesis dictionary gives back its row, up to empty tag list columns. */
  lemma ThesisDictRoundTrip(t: ThesisRow)
    ensures var d := ThesisToDict(t);
      && |d.positions| == |t.positions|
      && (forall i :: 0 <= i < |d.positions| ==>
            PositionRow(d.positions[i].value, d.positions[i].party, d.positions[i].text) == t.positions[i])
      && (forall i :: 0 <= i < |d.tags| ==> TagFromDict(d.tags[i]) == NormalizeLists(t.tags[i]))
      && d.text == t.text
  {
    var d := ThesisToDict(t);
    forall i | 0 <= i < |d.tags| ensures TagFromDict(d.tags[i]) == NormalizeLists(t.tags[i]) {
      TagDictRoundTrip(t.tags[i]);
    }
  }

  // -----------------------------------------------------------------------
  // Occasion.result_dict

  /** `{"votes": ..., "pct": ...}`; `pct` in hundredths of a percent. */
  datatype ResultEntry = ResultEntry(votes: int, pct: nat)

  function EntryOf(r: ResultRow): ResultEntry {
    ResultEntry(r.votes, r.pct)
  }

  /** The dictionary after the first `|rows|` iterations of the loop. */
  function ResultMap(rows: seq<ResultRow>): map<string, ResultEntry> {
    if rows == [] then map[]
    else
      var last := rows[|rows| - 1];
      ResultMap(rows[..|rows| - 1])[last.partyName := EntryOf(last)]
  }

  /** `Occasion.result_dict`. */
  method ResultDict(rows: seq<ResultRow>) returns (rv: map<string, ResultEntry>)
    ensures rv == ResultMap(rows)
  {
    rv := map[];
    var i := 0;
    while i < |rows|
      invariant 0 <= i <= |rows|
      invariant rv == ResultMap(rows[..i])
    {
      assert rows[..i + 1][..i] == rows[..i];
      rv := rv[rows[i].partyName := ResultEntry(rows[i].votes, rows[i].pct)];
      i := i + 1;
    }
    assert rows[..|rows|] == rows;
  }

  /** One key per distinct party name. */
  lemma {:induction false} ResultMapKeys(rows: seq<ResultRow>)
    ensures ResultMap(rows).Keys == set i | 0 <= i < |rows| :: rows[i].partyName
  {
    if rows != [] {
      var init := rows[..|rows| - 1];
      ResultMapKeys(init);
      assert forall i :: 0 <= i < |init| ==> init[i] == rows[i];
      assert (set i | 0 <= i < |rows| :: rows[i].partyName)
          == (set i | 0 <= i < |init| :: init[i].partyName) + {rows[|rows| - 1].partyName};
    }
  }

  /** The last row of a party wins. */
  lemma {:induction false} ResultMapLastWins(rows: seq<ResultRow>, i: nat)
    requires i < |rows|
    requires forall j :: i < j < |rows| ==> rows[j].partyName != rows[i].partyName
    ensures rows[i].partyName in ResultMap(rows)
    ensures ResultMap(rows)[rows[i].partyName] == EntryOf(rows[i])
  {
    if i < |rows| - 1 {
      var init := rows[..|rows| - 1];
      assert forall j :: i < j < |init| ==> init[j] == rows[j];
      ResultMapLastWins(init, i);
    }
  }

  // -----------------------------------------------------------------------
  // Objection votes

  /** The new `vote_count`: a count never set starts at 1 whatever the
      vote; otherwise an up-vote adds one and a down-vote takes one. */
  function NextCount(count: Option<int>, value: bool): (r: Option<int>)
    ensures r.Some?
    ensures count.None? ==> r.value == 1
    ensures count.Some? ==> r.value == count.value + (if value then 1 else -1)
  {
    match count
    case None => Some(1)
    case Some(c) => Some(if value then c + 1 else c - 1)
  }

  function FinalCount(count: Option<int>, votes: seq<bool>): Option<int>
    decreases |votes|
  {
    if votes == [] then count else FinalCount(NextCount(count, votes[0]), votes[1..])
  }

  function Ups(votes: seq<bool>): nat {
    if votes == [] then 0 else (if votes[0] then 1 else 0) + Ups(votes[1..])
  }

  /** After any run of votes on a set count, the count moved by the
      up-votes minus the down-votes. */
  lemma {:induction false} FinalCountTally(c: int, votes: seq<bool>)
    ensures FinalCount(Some(c), votes) == Some(c + Ups(votes) - (|votes| - Ups(votes)))
    decreases |votes|
  {
    if votes != [] {
      FinalCountTally(NextCount(Some(c), votes[0]).value, votes[1..]);
    }
  }

  /** The first vote on an unset count is lost: it sets 1 either way. */
  lemma FirstVoteOnUnsetCount(votes: seq<bool>)
    requires votes != []
    ensures FinalCount(None, votes) == FinalCount(Some(1), votes[1..])
  {
  }

  class ObjectionVote {
    const uuid: string
    const value: bool
    const objection: Objection

    constructor (uuid: string, value: bool, objection: Objection)
      ensures this.uuid == uuid && this.value == value && this.objection == objection
    {
      this.uuid := uuid;
      this.value := value;
      this.objection := objection;
    }
  }

  class Objection {
    var voteCount: Option<int>

    constructor (voteCount: Option<int>)
      ensures this.voteCount == voteCount
    {
      this.voteCount := voteCount;
    }

    /** `Objection.vote`: updates the count and returns the new vote,
        linked to this objection. */
    method Vote(uuid: string, value: bool) returns (v: ObjectionVote)
      modifies this`voteCount
      ensures voteCount == NextCount(old(voteCount), value)
      ensures fresh(v) && v.uuid == uuid && v.value == value && v.objection == this
    {
      if voteCount.None? {
        voteCount := Some(1);
      } else {
        voteCount := Some(if value then voteCount.value + 1 else voteCount.value - 1);
      }
      v := new ObjectionVote(uuid, value, this);
    }
  }

  // -----------------------------------------------------------------------
  // Related tags: counting

  /** The tags of all theses, thesis after thesis. */
  function Flatten(theses: seq<seq<TagRow>>): seq<TagRow> {
    if theses == [] then [] else Flatten(theses[..|theses| - 1]) + theses[|theses| - 1]
  }

  /** The tag the loop skips (`tag != self` of `Tag.related_tags`). */
  predicate Skipped(t: TagRow, exclude: Option<string>) {
    exclude == Some(t.title)
  }

  /** `tag_counts` (with its key order) and `tags`. */
  datatype TagTally = TagTally(order: seq<string>, counts: map<string, int>, last: map<string, TagRow>)

  /** Every counted title has its last seen tag. */
  ghost predicate Indexed(st: TagTally) {
    st.last.Keys == st.counts.Keys
  }

  ghost predicate TallyValid(st: TagTally) {
    && (forall i, j :: 0 <= i < j < |st.order| ==> st.order[i] != st.order[j])
    && (forall k :: k in st.counts <==> k in st.order)
    && Indexed(st)
    && (forall k :: k in st.counts ==> st.counts[k] >= 1)
    && (forall k :: k in st.last ==> st.last[k].title == k)
  }

  /** One iteration: `tag_counts[tag.title] += 1; tags[tag.title] = tag`. */
  function Bump(st: TagTally, t: TagRow): TagTally {
    if t.title in st.counts then
      TagTally(st.order, st.counts[t.title := st.counts[t.title] + 1], st.last[t.title := t])
    else
      TagTally(st.order + [t.title], st.counts[t.title := 1], st.last[t.title := t])
  }

  /** An iteration keeps the keys distinct and in step with the counters,
      every counter positive and every kept tag under its own title. */
  lemma BumpValid(st: TagTally, t: TagRow)
    requires TallyValid(st)
    ensures TallyValid(Bump(st, t))
  {
    if t.title in st.counts {
      BumpSeen(st, t);
    } else {
      BumpNew(st, t);
    }
  }

  lemma BumpSeen(st: TagTally, t: TagRow)
    requires TallyValid(st) && t.title in st.counts
    ensures TallyValid(TagTally(st.order, st.counts[t.title := st.counts[t.title] + 1], st.last[t.title := t]))
  {
    var counts := st.counts[t.title := st.counts[t.title] + 1];
    assert counts.Keys == st.counts.Keys;
    assert st.last[t.title := t].Keys == st.last.Keys;
  }

  lemma BumpNew(st: TagTally, t: TagRow)
    requires TallyValid(st) && t.title !in st.counts
    ensures TallyValid(TagTally(st.order + [t.title], st.counts[t.title := 1], st.last[t.title := t]))
  {
    AppendFresh(st.order, t.title);
    assert st.counts[t.title := 1].Keys == st.counts.Keys + {t.title};
    assert st.last[t.title := t].Keys == st.last.Keys + {t.title};
  }

  /** A new key appended to distinct keys keeps them distinct. */
  lemma AppendFresh(order: seq<string>, k: string)
    requires forall i, j :: 0 <= i < j < |order| ==> order[i] != order[j]
    requires k !in order
    ensures forall i, j :: 0 <= i < j < |order + [k]| ==> (order + [k])[i] != (order + [k])[j]
    ensures forall x :: x in order + [k] <==> x in order || x == k
  {
    var o := order + [k];
    forall i, j | 0 <= i < j < |o| ensures o[i] != o[j] {
      assert o[i] == order[i];
      if j < |order| {
        assert o[j] == order[j];
      }
    }
  }

  /** The state after the counting loops have seen `flat`. */
  function Tally(flat: seq<TagRow>, exclude: Option<string>): (st: TagTally)
    ensures TallyValid(st)
  {
    if flat == [] then TagTally([], map[], map[])
    else
      var st := Tally(flat[..|flat| - 1], exclude);
      var t := flat[|flat| - 1];
      if Skipped(t, exclude) then st
      else
        BumpValid(st, t);
        Bump(st, t)
  }

  /** How many of the tags seen carry `title` and are not skipped. */
  function Occurrences(flat: seq<TagRow>, title: string, exclude: Option<string>): nat {
    if flat == [] then 0
    else
      var t := flat[|flat| - 1];
      Occurrences(flat[..|flat| - 1], title, exclude)
        + (if t.title == title && !Skipped(t, exclude) then 1 else 0)
  }

  /** The counter of a title is the number of its occurrences, and the
      titles counted are exactly those that occur. */
  lemma {:induction false} TallyCounts(flat: seq<TagRow>, title: string, exclude: Option<string>)
    ensures title in Tally(flat, exclude).counts <==> Occurrences(flat, title, exclude) > 0
    ensures title in Tally(flat, exclude).counts ==>
      Tally(flat, exclude).counts[title] == Occurrences(flat, title, exclude)
  {
    if flat != [] {
      var init, t := flat[..|flat| - 1], flat[|flat| - 1];
      TallyCounts(init, title, exclude);
      if !Skipped(t, exclude) {
        BumpCounts(Tally(init, exclude), t, title);
      }
    }
  }

  /** What one iteration does to the counter of `title`. */
  lemma BumpCounts(st: TagTally, t: TagRow, title: string)
    ensures title in Bump(st, t).counts <==> title in st.counts || title == t.title
    ensures title in Bump(st, t).counts ==>
      Bump(st, t).counts[title]
        == (if title in st.counts then st.counts[title] else 0) + (if title == t.title then 1 else 0)
  {
  }

  /** The excluded title is never counted. */
  lemma {:induction false} TallyExcludes(flat: seq<TagRow>, self: string)
    ensures self !in Tally(flat, Some(self)).counts
  {
    if flat != [] {
      TallyExcludes(flat[..|flat| - 1], self);
    }
  }

  lemma {:induction false} OccurrencesConcat(a: seq<TagRow>, b: seq<TagRow>, title: string, exclude: Option<string>)
    ensures Occurrences(a + b, title, exclude) == Occurrences(a, title, exclude) + Occurrences(b, title, exclude)
    decreases |b|
  {
    if b == [] {
      assert a + b == a;
    } else {
      assert (a + b)[..|a + b| - 1] == a + b[..|b| - 1];
      OccurrencesConcat(a, b[..|b| - 1], title, exclude);
    }
  }

  predicate HasTag(tags: seq<TagRow>, title: string) {
    exists i :: 0 <= i < |tags| && tags[i].title == title
  }

  lemma {:induction false} OccurrencesInDistinct(tags: seq<TagRow>, title: string)
    requires forall i, j :: 0 <= i < j < |tags| ==> tags[i].title != tags[j].title
    ensures Occurrences(tags, title, None) == if HasTag(tags, title) then 1 else 0
  {
    if tags != [] {
      var init := tags[..|tags| - 1];
      OccurrencesInDistinct(init, title);
      if tags[|tags| - 1].title == title {
        assert !HasTag(init, title);
      } else if HasTag(tags, title) {
        var i :| 0 <= i < |tags| && tags[i].title == title;
        assert init[i].title == title;
      }
    }
  }

  /** The number of theses that carry `title`. */
  function ThesesWith(theses: seq<seq<TagRow>>, title: string): nat {
    if theses == [] then 0
    else ThesesWith(theses[..|theses| - 1], title) + (if HasTag(theses[|theses| - 1], title) then 1 else 0)
  }

  /** A thesis lists a tag at most once (the link table's primary key), so
      each tag is counted once per thesis that carries it. */
  lemma {:induction false} CountIsThesesCarrying(theses: seq<seq<TagRow>>, title: string)
    requires forall k :: 0 <= k < |theses| ==>
      forall i, j :: 0 <= i < j < |theses[k]| ==> theses[k][i].title != theses[k][j].title
    ensures Occurrences(Flatten(theses), title, None) == ThesesWith(theses, title)
  {
    if theses != [] {
      var init := theses[..|theses| - 1];
      CountIsThesesCarrying(init, title);
      OccurrencesConcat(Flatten(init), theses[|theses| - 1], title, None);
      OccurrencesInDistinct(theses[|theses| - 1], title);
    }
  }

  lemma TallyStep(seen: seq<TagRow>, t: TagRow, exclude: Option<string>)
    ensures Tally(seen + [t], exclude)
         == if Skipped(t, exclude) then Tally(seen, exclude) else Bump(Tally(seen, exclude), t)
  {
    assert (seen + [t])[..|seen|] == seen;
  }

  lemma PrefixStep<T>(seen: seq<T>, s: seq<T>, j: nat)
    requires j < |s|
    ensures seen + s[..j] + [s[j]] == seen + s[..j + 1]
  {
    assert s[..j + 1] == s[..j] + [s[j]];
  }

  /** The inner loop, over the tags of one thesis. */
  method CountThesisTags(st0: TagTally, tags: seq<TagRow>, exclude: Option<string>, ghost seen: seq<TagRow>)
    returns (st: TagTally)
    requires st0 == Tally(seen, exclude)
    ensures st == Tally(seen + tags, exclude)
  {
    st := st0;
    var j := 0;
    assert seen + tags[..0] == seen;
    while j < |tags|
      invariant 0 <= j <= |tags|
      invariant st == Tally(seen + tags[..j], exclude)
    {
      ghost var prefix := seen + tags[..j];
      TallyStep(prefix, tags[j], exclude);
      PrefixStep(seen, tags, j);
      if !Skipped(tags[j], exclude) {
        st := Bump(st, tags[j]);
      }
      j := j + 1;
    }
    assert tags[..|tags|] == tags;
  }

  /** The nested loops over the theses and their tags. */
  method CountTags(theses: seq<seq<TagRow>>, exclude: Option<string>) returns (st: TagTally)
    ensures st == Tally(Flatten(theses), exclude)
  {
    st := TagTally([], map[], map[]);
    var i := 0;
    while i < |theses|
      invariant 0 <= i <= |theses|
      invariant st == Tally(Flatten(theses[..i]), exclude)
    {
      st := CountThesisTags(st, theses[i], exclude, Flatten(theses[..i]));
      assert theses[..i + 1][..i] == theses[..i];
      i := i + 1;
    }
    assert theses[..|theses|] == theses;
  }

  // -----------------------------------------------------------------------
  // Related tags: the cutoff

  const RelatedTagCount := 10

  /** The counts of the titles in `order`. */
  function ValuesOf(st: TagTally, order: seq<string>): (vs: seq<int>)
    requires forall i :: 0 <= i < |order| ==> order[i] in st.counts
    ensures |vs| == |order|
    ensures forall i :: 0 <= i < |vs| ==> vs[i] == st.counts[order[i]]
  {
    seq(|order|, i requires 0 <= i < |order| => st.counts[order[i]])
  }

  /** `tag_counts.values()`, in key order. */
  function Values(st: TagTally): (vs: seq<int>)
    requires TallyValid(st)
  {
    ValuesOf(st, st.order)
  }

  function Identity(x: int): int { x }

  /** `sorted(values)[::-1][:num_related_tags + 1][-1]`: the eleventh
      largest value, or the smallest when there are fewer; `None` for the
      `IndexError` on no values. */
  function Cutoff(values: seq<int>): (c: Option<int>)
    ensures c.None? <==> values == []
  {
    if values == [] then None
    else Some(Seqs.SortDesc(values, Identity)[Min(|values|, RelatedTagCount + 1) - 1])
  }

  /** Whether a count makes the list: strictly above the cutoff for a
      category, at or above it for a tag. */
  predicate Keep(count: int, cutoff: int, strict: bool) {
    if strict then count > cutoff else count >= cutoff
  }

  function KeepIndicator(cutoff: int, strict: bool): int -> int {
    (x: int) => if Keep(x, cutoff, strict) then 1 else 0
  }

  /** How many of `values` make the list. */
  function CountKept(values: seq<int>, cutoff: int, strict: bool): int {
    Seqs.SumOf(values, KeepIndicator(cutoff, strict))
  }

  ghost predicate Descending(s: seq<int>) {
    forall i, j :: 0 <= i < j < |s| ==> s[i] >= s[j]
  }

  lemma SortedByIdentity(values: seq<int>)
    ensures Descending(Seqs.SortDesc(values, Identity))
  {
    var sorted := Seqs.SortDesc(values, Identity);
    forall i, j | 0 <= i < j < |sorted| ensures sorted[i] >= sorted[j] {
      assert Identity(sorted[i]) >= Identity(sorted[j]);
    }
  }

  /** In a descending list only the first `k - 1` values can exceed the `k`-th. */
  lemma DescendingAbove(sorted: seq<int>, k: nat)
    requires 1 <= k <= |sorted| && Descending(sorted)
    ensures CountKept(sorted, sorted[k - 1], true) <= k - 1
  {
    var f := KeepIndicator(sorted[k - 1], true);
    var head, tail := sorted[..k - 1], sorted[k - 1..];
    assert sorted == head + tail;
    Seqs.SumOfConcat(head, tail, f);
    Seqs.SumOfAtMostLength(head, f);
    forall i | 0 <= i < |tail| ensures f(tail[i]) <= 0 {
      assert tail[i] == sorted[k - 1 + i];
    }
    Seqs.SumOfNonPositive(tail, f);
  }

  /** In a descending list the first `k` values all reach the `k`-th. */
  lemma DescendingAtLeast(sorted: seq<int>, k: nat)
    requires 1 <= k <= |sorted| && Descending(sorted)
    ensures CountKept(sorted, sorted[k - 1], false) >= k
  {
    var f := KeepIndicator(sorted[k - 1], false);
    var head, tail := sorted[..k], sorted[k..];
    assert sorted == head + tail;
    Seqs.SumOfConcat(head, tail, f);
    forall i | 0 <= i < |head| ensures f(head[i]) >= 1 {
      assert head[i] == sorted[i];
    }
    Seqs.SumOfAtLeastLength(head, f);
    Seqs.SumOfNonNegative(tail, f);
  }

  /** Fewer than eleven values lie strictly above the cutoff: at most ten. */
  lemma CutoffAbove(values: seq<int>)
    requires values != []
    ensures CountKept(values, Cutoff(values).value, true) <= RelatedTagCount
  {
    var sorted := Seqs.SortDesc(values, Identity);
    var k := Min(|values|, RelatedTagCount + 1);
    SortedByIdentity(values);
    DescendingAbove(sorted, k);
    Seqs.SumOfPermutation(values, sorted, KeepIndicator(sorted[k - 1], true));
  }

  /** At least eleven values (or all of them, if fewer) reach the cutoff. */
  lemma CutoffAtLeast(values: seq<int>)
    requires values != []
    ensures CountKept(values, Cutoff(values).value, false) >= Min(|values|, RelatedTagCount + 1)
  {
    var sorted := Seqs.SortDesc(values, Identity);
    var k := Min(|values|, RelatedTagCount + 1);
    SortedByIdentity(values);
    DescendingAtLeast(sorted, k);
    Seqs.SumOfPermutation(values, sorted, KeepIndicator(sorted[k - 1], false));
  }

  /** The cutoff is one of the values. */
  lemma CutoffIsAValue(values: seq<int>)
    requires values != []
    ensures Cutoff(values).value in values
  {
    var sorted := Seqs.SortDesc(values, Identity);
    assert sorted[Min(|values|, RelatedTagCount + 1) - 1] in multiset(values);
  }

  // -----------------------------------------------------------------------
  // Related tags: the result dictionary

  /** `rv[tag] = {"count": ..., "tag": tags[tag].to_dict()}`. */
  
  function EntryFor(st: TagTally, title: string): RelatedEntry
    requires Indexed(st) && title in st.counts
  {
    RelatedEntry(title, st.counts[title], PlainTagDict(st.last[title]))
  }

  /** The entries for the first `|order|` keys of `tag_counts`. */
  function Select(st: TagTally, order: seq<string>, cutoff: int, strict: bool): (r: seq<RelatedEntry>)
    requires Indexed(st) && forall i :: 0 <= i < |order| ==> order[i] in st.counts
    ensures |r| <= |order|
  {
    if order == [] then []
    else
      var rest := Select(st, order[..|order| - 1], cutoff, strict);
      var title := order[|order| - 1];
      if Keep(st.counts[title], cutoff, strict) then rest + [EntryFor(st, title)] else rest
  }

  /** An entry exists exactly for each kept title, and carries that
      title's count and its tag's dictionary. */
  lemma {:induction false} SelectMembers(st: TagTally, order: seq<string>, cutoff: int, strict: bool)
    requires Indexed(st) && forall i :: 0 <= i < |order| ==> order[i] in st.counts
    ensures forall e :: e in Select(st, order, cutoff, strict) ==>
      e.title in order && e == EntryFor(st, e.title) && Keep(e.count, cutoff, strict)
    ensures forall t :: t in order && Keep(st.counts[t], cutoff, strict) ==>
      EntryFor(st, t) in Select(st, order, cutoff, strict)
  {
    if order != [] {
      var init, last := order[..|order| - 1], order[|order| - 1];
      assert forall i :: 0 <= i < |init| ==> init[i] == order[i];
      SelectMembers(st, init, cutoff, strict);
      var r, rest := Select(st, order, cutoff, strict), Select(st, init, cutoff, strict);
      assert r == if Keep(st.counts[last], cutoff, strict) then rest + [EntryFor(st, last)] else rest;
      forall e | e in r
        ensures e.title in order && e == EntryFor(st, e.title) && Keep(e.count, cutoff, strict)
      {
        if e in rest {
          var k :| 0 <= k < |init| && init[k] == e.title;
          assert order[k] == e.title;
        }
      }
      forall t | t in order && Keep(st.counts[t], cutoff, strict)
        ensures EntryFor(st, t) in r
      {
        var k :| 0 <= k < |order| && order[k] == t;
        if k < |init| {
          assert init[k] == t;
        }
      }
    }
  }

  lemma {:induction false} SelectLength(st: TagTally, order: seq<string>, cutoff: int, strict: bool)
    requires Indexed(st) && forall i :: 0 <= i < |order| ==> order[i] in st.counts
    ensures |Select(st, order, cutoff, strict)| == CountKept(ValuesOf(st, order), cutoff, strict)
  {
    var vs := ValuesOf(st, order);
    if order != [] {
      var init := order[..|order| - 1];
      assert forall i :: 0 <= i < |init| ==> init[i] == order[i];
      SelectLength(st, init, cutoff, strict);
      var vi := ValuesOf(st, init);
      var f := KeepIndicator(cutoff, strict);
      assert vs == vi + [vs[|vs| - 1]];
      assert Seqs.SumOf(vs, f) == Seqs.SumOf(vi, f) + f(vs[|vs| - 1]) by {
        Seqs.SumOfConcat(vi, [vs[|vs| - 1]], f);
        assert [vs[|vs| - 1]][1..] == [];
      }
    }
  }

  /** The second loop of `related_tags`, over the keys of `tag_counts`. */
  method SelectEntries(st: TagTally, cutoff: int, strict: bool) returns (rv: seq<RelatedEntry>)
    requires TallyValid(st)
    ensures rv == Select(st, st.order, cutoff, strict)
  {
    rv := [];
    var i := 0;
    while i < |st.order|
      invariant 0 <= i <= |st.order|
      invariant rv == Select(st, st.order[..i], cutoff, strict)
    {
      assert st.order[..i + 1][..i] == st.order[..i];
      var title := st.order[i];
      if st.counts[title] > cutoff || (!strict && st.counts[title] == cutoff) {
        rv := rv + [RelatedEntry(title, st.counts[title], PlainTagDict(st.last[title]))];
      }
      i := i + 1;
    }
    assert st.order[..|st.order|] == st.order;
  }

  datatype Outcome<T> = Ok(value: T) | IndexError

  /** `Category.related_tags` over the tag lists of the category's theses. */
  function CategoryRelated(theses: seq<seq<TagRow>>): Outcome<seq<RelatedEntry>> {
    var st := Tally(Flatten(theses), None);
    match Cutoff(Values(st))
    case None => IndexError
    case Some(c) => Ok(Select(st, st.order, c, true))
  }

  /** `Tag.related_tags` of the tag titled `self`. */
  function TagRelated(self: string, theses: seq<seq<TagRow>>): seq<RelatedEntry> {
    var st := Tally(Flatten(theses), Some(self));
    match Cutoff(Values(st))
    case None => []
    case Some(c) => Select(st, st.order, c, false)
  }

  method CategoryRelatedTags(theses: seq<seq<TagRow>>) returns (r: Outcome<seq<RelatedEntry>>)
    ensures r == CategoryRelated(theses)
  {
    var st := CountTags(theses, None);
    var cutoff := Cutoff(Values(st));
    if cutoff.None? {
      return IndexError;
    }
    var rv := SelectEntries(st, cutoff.value, true);
    r := Ok(rv);
  }

  method TagRelatedTags(self: string, theses: seq<seq<TagRow>>) returns (rv: seq<RelatedEntry>)
    ensures rv == TagRelated(self, theses)
  {
    var st := CountTags(theses, Some(self));
    var cutoff := Cutoff(Values(st));
    if cutoff.None? {
      return [];
    }
    rv := SelectEntries(st, cutoff.value, false);
  }

  lemma {:induction false} TallyEmpty(flat: seq<TagRow>)
    ensures Tally(flat, None).order == [] <==> flat == []
  {
    if flat != [] {
      var t := flat[|flat| - 1];
      assert t.title in Tally(flat, None).counts;
    }
  }

  /** What the selection with the computed cutoff holds, for any counts. */
  lemma SelectWithCutoff(st: TagTally, strict: bool)
    requires TallyValid(st) && st.order != []
    ensures var c := Cutoff(Values(st)).value;
      var es := Select(st, st.order, c, strict);
      && (strict ==> |es| <= RelatedTagCount)
      && (!strict ==> |es| >= Min(|st.order|, RelatedTagCount + 1))
      && (forall e :: e in es ==> e.title in st.counts && e == EntryFor(st, e.title) && Keep(e.count, c, strict))
      && (forall t :: t in st.counts && Keep(st.counts[t], c, strict) ==> EntryFor(st, t) in es)
  {
    var c := Cutoff(Values(st)).value;
    if strict {
      CutoffAbove(Values(st));
    } else {
      CutoffAtLeast(Values(st));
    }
    SelectLength(st, st.order, c, strict);
    SelectMembers(st, st.order, c, strict);
  }

  /** A category fails exactly when its theses carry no tag at all. */
  lemma CategoryRelatedFails(theses: seq<seq<TagRow>>)
    ensures CategoryRelated(theses).IndexError? <==> Flatten(theses) == []
  {
    TallyEmpty(Flatten(theses));
  }

  /** Otherwise it lists at most ten tags: each one counted strictly above
      the cutoff, and every such tag. */
  lemma CategoryRelatedBounds(theses: seq<seq<TagRow>>)
    requires CategoryRelated(theses).Ok?
    ensures var st := Tally(Flatten(theses), None);
      var c := Cutoff(Values(st)).value;
      var es := CategoryRelated(theses).value;
      && |es| <= RelatedTagCount
      && (forall e :: e in es ==> e.title in st.counts && e.count > c && e == EntryFor(st, e.title))
      && (forall t :: t in st.counts && st.counts[t] > c ==> EntryFor(st, t) in es)
  {
    var st := Tally(Flatten(theses), None);
    CategoryRelatedFails(theses);
    TallyEmpty(Flatten(theses));
    assert st.order != [];
    SelectWithCutoff(st, true);
  }

  /** A tag never lists itself; it lists every other tag counted at least
      the cutoff, so at least eleven of them when there are that many. */
  lemma TagRelatedBounds(self: string, theses: seq<seq<TagRow>>)
    ensures var st := Tally(Flatten(theses), Some(self));
      var es := TagRelated(self, theses);
      && (forall e :: e in es ==> e.title != self && e.title in st.counts && e == EntryFor(st, e.title))
      && |es| >= Min(|st.order|, RelatedTagCount + 1)
      && (st.order != [] ==> forall t :: t in st.counts && st.counts[t] >= Cutoff(Values(st)).value
                               ==> EntryFor(st, t) in es)
  {
    var st := Tally(Flatten(theses), Some(self));
    TallyExcludes(Flatten(theses), self);
    if st.order != [] {
      SelectWithCutoff(st, false);
    }
  }

  /** On the same counts, every tag a category keeps a tag keeps too. */
  lemma StrictSelectsFewer(st: TagTally, cutoff: int)
    requires TallyValid(st)
    ensures forall e :: e in Select(st, st.order, cutoff, true) ==> e in Select(st, st.order, cutoff, false)
  {
    SelectMembers(st, st.order, cutoff, true);
    SelectMembers(st, st.order, cutoff, false);
  }
}
