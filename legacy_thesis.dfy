/** The first version of the thesis card, from the tagging tool that came
    before the Metawahl client: it lists a thesis's parties by answer in the
    order the API sent them, opens one party's explanation at a time, and
    collects the Wikidata tags picked for the thesis. */
module LegacyThesis {
  import opened Common
  import Seqs
  import ThesisView

  /** A position as the API sent it: `value` is 1 (pro), 0 (neutral) or
      -1 (contra). */
  datatype Position = Position(party: string, value: int, text: Option<string>)

  // ---------------------------------------------------------------------
  // The three answer lists

  function WithValue(v: int): Position -> bool {
    (p: Position) => p.value == v
  }

  datatype Overview = Overview(pro: seq<Position>, neutral: seq<Position>, contra: seq<Position>)

  /** The pro, neutral and contra lists of `render`. */
  function Partition(positions: seq<Position>): (o: Overview)
    ensures forall i :: 0 <= i < |o.pro| ==> o.pro[i].value == 1
    ensures forall i :: 0 <= i < |o.neutral| ==> o.neutral[i].value == 0
    ensures forall i :: 0 <= i < |o.contra| ==> o.contra[i].value == -1
  {
    Overview(Seqs.Filter(positions, WithValue(1)), Seqs.Filter(positions, WithValue(0)),
             Seqs.Filter(positions, WithValue(-1)))
  }

  /** Each list holds exactly the positions with its value. */
  lemma PartitionExact(positions: seq<Position>, p: Position)
    ensures p in Partition(positions).pro <==> p in positions && p.value == 1
    ensures p in Partition(positions).neutral <==> p in positions && p.value == 0
    ensures p in Partition(positions).contra <==> p in positions && p.value == -1
  {
    var o := Partition(positions);
    if p in o.pro { assert p in multiset(o.pro); }
    if p in o.neutral { assert p in multiset(o.neutral); }
    if p in o.contra { assert p in multiset(o.contra); }
  }

  /** The lists keep the input order: partitioning a concatenation
      concatenates the partitions. */
  lemma PartitionKeepsOrder(a: seq<Position>, b: seq<Position>)
    ensures Partition(a + b).pro == Partition(a).pro + Partition(b).pro
    ensures Partition(a + b).neutral == Partition(a).neutral + Partition(b).neutral
    ensures Partition(a + b).contra == Partition(a).contra + Partition(b).contra
  {
    Seqs.FilterConcat(a, b, WithValue(1));
    Seqs.FilterConcat(a, b, WithValue(0));
    Seqs.FilterConcat(a, b, WithValue(-1));
  }

  /** The three lists taken together, as a multiset. */
  ghost function Listed(o: Overview): multiset<Position> {
    multiset(o.pro) + multiset(o.neutral) + multiset(o.contra)
  }

  /** When every answer is 1, 0 or -1, the three lists together are a
      rearrangement of the input: nothing lost, nothing duplicated. */
  lemma {:induction false} PartitionCovers(positions: seq<Position>)
    requires forall i :: 0 <= i < |positions| ==> -1 <= positions[i].value <= 1
    ensures Listed(Partition(positions)) == multiset(positions)
  {
    if positions != [] {
      var head, tail := positions[..1], positions[1..];
      assert positions == head + tail;
      assert head == [positions[0]];
      PartitionKeepsOrder(head, tail);
      var oh, ot := Partition(head), Partition(tail);
      assert Partition(positions) == Merged(oh, ot);
      PartitionCovers(tail);
      PartitionSingle(positions[0]);
      ListedMerged(oh, ot);
    }
  }

  function Merged(a: Overview, b: Overview): Overview {
    Overview(a.pro + b.pro, a.neutral + b.neutral, a.contra + b.contra)
  }

  lemma ListedMerged(a: Overview, b: Overview)
    ensures Listed(Merged(a, b)) == Listed(a) + Listed(b)
  {
  }

  lemma PartitionSingle(p: Position)
    requires -1 <= p.value <= 1
    ensures Listed(Partition([p])) == multiset{p}
  {
    assert [p][1..] == [];
  }

  // ---------------------------------------------------------------------
  // Rendering a list

  /** `p.text && p.text.length > 0`. */
  predicate HasText(p: Position) {
    p.text.Some? && |p.text.value| > 0
  }

  /** One party in a list: clickable (with `toggleOpen` attached) or not. */
  datatype Entry = Entry(party: string, clickable: bool)

  datatype Block = Block(heading: string, entries: seq<Entry>)

  /** `Positions`: nothing for an empty list, otherwise the label and one
      entry per position in the list's order. */
  function PositionsBlock(heading: string, positions: seq<Position>): (r: Option<Block>)
    ensures r.None? <==> positions == []
    ensures r.Some? ==> r.value.heading == heading && |r.value.entries| == |positions|
    ensures r.Some? ==> forall i :: 0 <= i < |positions| ==>
      r.value.entries[i].party == positions[i].party
      && (r.value.entries[i].clickable <==> HasText(positions[i]))
  {
    if positions == [] then None
    else Some(Block(heading, seq(|positions|, i requires 0 <= i < |positions| =>
      Entry(positions[i].party, HasText(positions[i])))))
  }

  /** The explanation line under the lists: party and text of the opened
      position. */
  datatype TextLine = TextLine(party: string, text: Option<string>)

  /** `positionText`: absent while nothing is open or when the card says its
      data is not loaded (`loaded === false`; an absent flag is not false). */
  function PositionText(openText: Option<Position>, loaded: Option<bool>): (r: Option<TextLine>)
    ensures r.None? <==> openText.None? || loaded == Some(false)
    ensures r.Some? ==> r.value.party == openText.value.party && r.value.text == openText.value.text
  {
    if openText.None? || loaded == Some(false) then None
    else Some(TextLine(openText.value.party, openText.value.text))
  }

  // ---------------------------------------------------------------------
  // The link to the election

  /** `womID`: the base-10 integer of the second `-`-separated segment of
      the thesis ID; a missing segment is `undefined`, which parses to NaN. */
  function WomId(id: string): (r: Option<int>)
    ensures |Split(id, '-')| < 2 ==> r.None?
  {
    var parts := Split(id, '-');
    if |parts| < 2 then None else ParseInt(parts[1])
  }

  /** The election number the API put into a thesis ID comes back out. */
  lemma WomIdOfThesisId(occasionNum: nat, thesisNum: nat)
    ensures WomId(ThesisView.ThesisId(Some(occasionNum), Some(thesisNum))) == Some(occasionNum)
  {
    ThesisView.ThesisIdRoundTrip(occasionNum, thesisNum);
  }

  /** An ID without a dash has no election number. */
  lemma WomIdWithoutDash(id: string)
    requires '-' !in id
    ensures WomId(id).None?
  {
    SplitOfPlain(id, '-');
  }

  // ---------------------------------------------------------------------
  // Categories

  const CategoryNames: seq<string> := [
    "Arbeit und Beschäftigung",
    "Ausländerpolitik, Zuwanderung",
    "Außenpolitik und internationale Beziehungen",
    "Außenwirtschaft",
    "Bildung und Erziehung",
    "Bundestag",
    "Energie",
    "Entwicklungspolitik",
    "Europapolitik und Europäische Union",
    "Gesellschaftspolitik, soziale Gruppen",
    "Gesundheit",
    "Innere Sicherheit",
    "Kultur",
    "Landwirtschaft und Ernährung",
    "Medien, Kommunikation und Informationstechnik",
    "Neue Bundesländer",
    "Öffentliche Finanzen, Steuern und Abgaben",
    "Politisches Leben, Parteien",
    "Raumordnung, Bau- und Wohnungswesen",
    "Recht",
    "Soziale Sicherung",
    "Sport, Freizeit und Tourismus",
    "Staat und Verwaltung",
    "Umwelt",
    "Verkehr",
    "Verteidigung",
    "Wirtschaft",
    "Wissenschaft, Forschung und Technologie"
  ]

  /** A dropdown option. */
  datatype CategoryOption = CategoryOption(key: string, value: string, text: string)

  /** `categoryOptions`: one option per name, in order, with key, value and
      text all equal to the name. */
  function CategoryOptions(names: seq<string>): (opts: seq<CategoryOption>)
    ensures |opts| == |names|
    ensures forall i :: 0 <= i < |names| ==>
      opts[i].key == names[i] && opts[i].value == names[i] && opts[i].text == names[i]
  {
    if names == [] then []
    else [CategoryOption(names[0], names[0], names[0])] + CategoryOptions(names[1..])
  }

  /** There are 28 options, one per category name. */
  lemma CategoryOptionCount()
    ensures |CategoryOptions(CategoryNames)| == 28
  {
  }

  // ---------------------------------------------------------------------
  // The card

  /** A tag picked in the Wikidata tagger, as shown: link, label and
      description. */
  datatype TagEntry = TagEntry(href: string, caption: string, description: string)

  class ThesisCard {
    var openText: Option<Position>
    var tags: seq<TagEntry>

    constructor ()
      ensures openText.None? && tags == []
    {
      openText := None;
      tags := [];
    }

    /** `handleTag`: the selection's entry is pushed onto the existing tag
        list; the selection's title is not shown. */
    method HandleTag(title: string, conceptUri: string, caption: string, description: string)
      modifies this`tags
      ensures tags == old(tags) + [TagEntry(conceptUri, caption, description)]
    {
      tags := tags + [TagEntry(conceptUri, caption, description)];
    }

    method ToggleOpen(party: Position)
      modifies this`openText
      ensures openText == Some(party)
    {
      openText := Some(party);
    }

    /** A click on a party in a list: only entries with text react. */
    method Click(p: Position)
      modifies this`openText
      ensures HasText(p) ==> openText == Some(p)
      ensures !HasText(p) ==> openText == old(openText)
    {
      if HasText(p) {
        ToggleOpen(p);
      }
    }

    /** Whether the tag segment is shown. */
    predicate ShowsTags()
      reads this
    {
      |tags| > 0
    }
  }

  /** Each selection adds exactly one tag, at the end, so after `k`
      selections on a fresh card the card shows `k` tags in selection order. */
  method TagAll(selections: seq<TagEntry>) returns (card: ThesisCard)
    ensures card.tags == selections
    ensures card.ShowsTags() <==> selections != []
  {
    card := new ThesisCard();
    var i := 0;
    while i < |selections|
      invariant 0 <= i <= |selections|
      invariant card.tags == selections[..i]
    {
      var s := selections[i];
      card.HandleTag(s.caption, s.href, s.caption, s.description);
      i := i + 1;
    }
    assert selections[..i] == selections;
  }
}
