/** The election page's list of theses (client/src/components/election/index.jsx):
    the share of the vote that went to the parties answering a thesis in
    favour (or against), the order of theses by that share, and the
    source credits under the list. */
module ElectionComponent {
  import opened Common
  import opened Types
  import Seqs

  datatype ResultsSource = ResultsSource(name: Option<string>, url: string)

  /** An election (`occasion`) as the API delivers it; `preliminary` is
      whether the field is `true` (a forecast rather than a result). */
  datatype Election = Election(
    title: string,
    source: string,
    results: Results,
    resultsSource: ResultsSource,
    preliminary: bool)

  /** A thesis as the list needs it. */
  datatype ThesisData = ThesisData(title: string, positions: seq<Position>)

  // -----------------------------------------------------------------------
  // Vote shares

  /** The share of a results key, or 0 for a key without an entry. */
  function PctAt(res: Results, k: string): nat {
    if k in res.entries then res.entries[k].pct else 0
  }

  predicate LinksTo(res: Results, k: string, party: string) {
    k in res.entries && res.entries[k].linkedPosition == Some(party)
  }

  function LinksToParty(res: Results, party: string): string -> bool {
    (k: string) => LinksTo(res, k, party)
  }

  function PctOf(res: Results): string -> int {
    (k: string) => PctAt(res, k) as int
  }

  /** The results keys whose `linked_position` is `party`, in key order. */
  function LinkedKeys(res: Results, party: string): (ks: seq<string>)
    ensures forall i :: 0 <= i < |ks| ==> LinksTo(res, ks[i], party)
    ensures forall i :: 0 <= i < |res.keys| && LinksTo(res, res.keys[i], party) ==> res.keys[i] in ks
  {
    Seqs.Filter(res.keys, LinksToParty(res, party))
  }

  /** What one position adds in `countVotes`: the party's own share when
      it has a results entry, otherwise the summed shares of every entry
      linked to it (CDU and CSU for the position of "CDU/CSU"). */
  function PartyShare(res: Results, party: string): nat {
    if party in res.entries then res.entries[party].pct
    else
      var s := Seqs.SumOf(LinkedKeys(res, party), PctOf(res));
      Seqs.SumOfNonNegative(LinkedKeys(res, party), PctOf(res));
      s
  }

  function ShareOf(res: Results): Position -> int {
    (p: Position) => PartyShare(res, p.party) as int
  }

  /** `positions.reduce(countVotes, 0.0)`. */
  function CountVotes(res: Results, positions: seq<Position>): int {
    Seqs.SumOf(positions, ShareOf(res))
  }

  function HasStance(v: Stance): Position -> bool {
    (p: Position) => p.value == v
  }

  function Counted(reverse: bool): Stance {
    if reverse then Contra else Pro
  }

  /** `getRatio(thesis, reverse)`: `None` (`null`) without an election. */
  function GetRatio(election: Option<Election>, positions: seq<Position>, reverse: bool): (r: Option<int>)
    ensures r.None? <==> election.None?
  {
    match election
    case None => None
    case Some(e) =>
      Some(CountVotes(e.results, Seqs.Filter(positions, HasStance(Counted(reverse)))))
  }

  lemma {:induction false} CountVotesConcat(res: Results, a: seq<Position>, b: seq<Position>)
    ensures CountVotes(res, a + b) == CountVotes(res, a) + CountVotes(res, b)
  {
    Seqs.SumOfConcat(a, b, ShareOf(res));
  }

  /** The ratio is additive over the thesis's positions. */
  lemma RatioAdditive(e: Election, a: seq<Position>, b: seq<Position>, reverse: bool)
    ensures GetRatio(Some(e), a + b, reverse).value
         == GetRatio(Some(e), a, reverse).value + GetRatio(Some(e), b, reverse).value
  {
    var p := HasStance(Counted(reverse));
    Seqs.FilterConcat(a, b, p);
    CountVotesConcat(e.results, Seqs.Filter(a, p), Seqs.Filter(b, p));
  }

  /** A single position counts exactly when it has the counted stance, and
      then with the share its party stands for. */
  lemma RatioOfOnePosition(e: Election, pos: Position, reverse: bool)
    ensures GetRatio(Some(e), [pos], reverse).value
         == if pos.value == Counted(reverse) then PartyShare(e.results, pos.party) else 0
  {
    CountVotesFilterCons(e.results, [pos], Counted(reverse));
    assert [pos][1..] == [];
  }

  /** Never negative, since the shares are not. */
  lemma {:induction false} CountVotesNonNegative(res: Results, positions: seq<Position>)
    ensures CountVotes(res, positions) >= 0
  {
    if positions != [] { CountVotesNonNegative(res, positions[1..]); }
  }

  /** Neutral answers and missing parties never change the ratio. */
  lemma RatioIgnoresOtherStances(e: Election, positions: seq<Position>, pos: Position, reverse: bool)
    requires pos.value != Counted(reverse)
    ensures GetRatio(Some(e), positions + [pos], reverse) == GetRatio(Some(e), positions, reverse)
  {
    RatioAdditive(e, positions, [pos], reverse);
    RatioOfOnePosition(e, pos, reverse);
  }

  /** Every position is counted once, in the share of its own stance. */
  lemma {:induction false} CountVotesByStance(res: Results, positions: seq<Position>)
    ensures CountVotes(res, positions)
         == CountVotes(res, Seqs.Filter(positions, HasStance(Pro)))
          + CountVotes(res, Seqs.Filter(positions, HasStance(Neutral)))
          + CountVotes(res, Seqs.Filter(positions, HasStance(Contra)))
          + CountVotes(res, Seqs.Filter(positions, HasStance(Missing)))
  {
    if positions != [] {
      CountVotesByStance(res, positions[1..]);
      CountVotesFilterCons(res, positions, Pro);
      CountVotesFilterCons(res, positions, Neutral);
      CountVotesFilterCons(res, positions, Contra);
      CountVotesFilterCons(res, positions, Missing);
    }
  }

  /** The head of a non-empty list adds its share to the count of its own
      stance and nothing to the others. */
  lemma CountVotesFilterCons(res: Results, s: seq<Position>, v: Stance)
    requires s != []
    ensures CountVotes(res, Seqs.Filter(s, HasStance(v)))
         == (if s[0].value == v then PartyShare(res, s[0].party) else 0)
          + CountVotes(res, Seqs.Filter(s[1..], HasStance(v)))
  {
    var q := HasStance(v);
    var rest := Seqs.Filter(s[1..], q);
    assert q(s[0]) <==> s[0].value == v;
    if q(s[0]) {
      assert Seqs.Filter(s, q) == [s[0]] + rest;
      assert CountVotes(res, [s[0]] + rest) == PartyShare(res, s[0].party) + CountVotes(res, rest) by {
        CountVotesConcat(res, [s[0]], rest);
        assert [s[0]][1..] == [];
      }
    } else {
      assert Seqs.Filter(s, q) == rest by {
        assert Seqs.Filter(s, q) == [] + rest;
      }
    }
  }

  /** The alliance case: "CDU/CSU" has no entry of its own; the entries CDU
      and CSU both link to it, so its position counts their summed share. */
  lemma AllianceRatio(pctCdu: nat, pctCsu: nat, e: Election)
    requires e.results == AllianceResults(pctCdu, pctCsu)
    ensures GetRatio(Some(e), [Position("CDU/CSU", Pro, None)], false).value == pctCdu + pctCsu
  {
    AllianceShare(pctCdu, pctCsu);
    RatioOfOnePosition(e, Position("CDU/CSU", Pro, None), false);
  }

  /** Results with entries for CDU and CSU, both linked to "CDU/CSU". */
  function AllianceResults(pctCdu: nat, pctCsu: nat): Results {
    Results(["CDU", "CSU"], map[
      "CDU" := PartyResult(0, pctCdu, None, Some("CDU/CSU")),
      "CSU" := PartyResult(0, pctCsu, None, Some("CDU/CSU"))])
  }

  lemma AllianceShare(pctCdu: nat, pctCsu: nat)
    ensures PartyShare(AllianceResults(pctCdu, pctCsu), "CDU/CSU") == pctCdu + pctCsu
  {
    var res := AllianceResults(pctCdu, pctCsu);
    assert "CDU/CSU" !in res.entries by {
      assert |"CDU/CSU"| == 7 && |"CDU"| == 3 && |"CSU"| == 3;
    }
    assert "CDU" != "CSU";
    TwoLinkedShare(res, "CDU/CSU");
  }

  /** A party without an entry of its own and with exactly two results keys
      linked to it counts the sum of their shares. */
  lemma TwoLinkedShare(res: Results, party: string)
    requires |res.keys| == 2 && res.keys[0] != res.keys[1]
    requires party !in res.entries
    requires LinksTo(res, res.keys[0], party) && LinksTo(res, res.keys[1], party)
    ensures PartyShare(res, party) == res.entries[res.keys[0]].pct + res.entries[res.keys[1]].pct
  {
    var ks := res.keys;
    var f := PctOf(res);
    assert LinkedKeys(res, party) == ks by {
      Seqs.FilterAll(ks, LinksToParty(res, party));
    }
    assert Seqs.SumOf(ks, f) == f(ks[0]) + f(ks[1]) by {
      assert ks[1..][0] == ks[1] && ks[1..][1..] == [];
      assert Seqs.SumOf(ks[1..], f) == f(ks[1]) + Seqs.SumOf(ks[1..][1..], f);
    }
  }

  /** A party with neither an entry nor linked entries counts nothing. */
  lemma UnknownPartyCountsNothing(res: Results, party: string)
    requires party !in res.entries
    requires forall k :: k in res.entries ==> res.entries[k].linkedPosition != Some(party)
    ensures PartyShare(res, party) == 0
  {
    Seqs.FilterNone(res.keys, LinksToParty(res, party));
  }

  // -----------------------------------------------------------------------
  // Ordering of the theses

  /** The sort key: comparing a `null` ratio with `>` treats it as 0. */
  function RatioKey(election: Option<Election>): ThesisData -> int {
    (t: ThesisData) => GetRatio(election, t.positions, false).GetOr(0)
  }

  /** `theses.sort((a, b) => getRatio(a) > getRatio(b) ? -1 : 1)`: a
      reordering of the theses with the larger ratio first. */
  function SortByRatio(election: Option<Election>, theses: seq<ThesisData>): (r: seq<ThesisData>)
    ensures multiset(r) == multiset(theses)
    ensures forall i, j :: 0 <= i < j < |r| ==> RatioKey(election)(r[i]) >= RatioKey(election)(r[j])
  {
    Seqs.SortDesc(theses, RatioKey(election))
  }

  /** The first thesis after sorting has the largest ratio of all. */
  lemma SortedFirstIsLargest(election: Option<Election>, theses: seq<ThesisData>, t: ThesisData)
    requires t in theses
    ensures var r := SortByRatio(election, theses);
      r != [] && RatioKey(election)(r[0]) >= RatioKey(election)(t)
  {
    var r := SortByRatio(election, theses);
    assert t in multiset(r);
    var i :| 0 <= i < |r| && r[i] == t;
    if i > 0 {
      assert RatioKey(election)(r[0]) >= RatioKey(election)(r[i]);
    }
  }

  // -----------------------------------------------------------------------
  // Source credits

  datatype Credit =
    | WahlOMatCredit(href: string, electionTitle: string)
    | ResultsCredit(href: string, caption: string)

  const TagesschauLabel := "Wahlergebnisse: wahl.tagesschau.de"
  const WikipediaLabel := "Wahlergebnisse: Wikipedia und lizensiert unter CC-BY-NC-SA-3.0"
  const DawumLabel := "Wahlprognose von dawum.de und lizensiert unter CC-BY-NC-SA-4.0"

  /** The label of the results link: a named source is prefixed with the
      kind of figures; an unnamed one is recognised by its URL, in the
      order tagesschau, Wikipedia, dawum, and otherwise shown as the URL.
      The clauses below follow the branches one by one; what they amount to
      for a concrete address is stated by `TagesschauFirst`. */
  function ResultsLabel(src: ResultsSource, preliminary: bool): (caption: string)
    ensures src.name.Some? && !preliminary ==> caption == "Wahlergebnisse: " + src.name.value
    ensures src.name.Some? && preliminary ==> caption == "Wahlprognose: " + src.name.value
    ensures src.name.None? && Contains(src.url, "wahl.tagesschau.de") ==> caption == TagesschauLabel
    ensures src.name.None? && !Contains(src.url, "wahl.tagesschau.de") && Contains(src.url, "wikipedia")
            ==> caption == WikipediaLabel
    ensures (src.name.None? && !Contains(src.url, "wahl.tagesschau.de") && !Contains(src.url, "wikipedia")
             && Contains(src.url, "dawum.de")) ==> caption == DawumLabel
    ensures (src.name.None? && !Contains(src.url, "wahl.tagesschau.de") && !Contains(src.url, "wikipedia")
             && !Contains(src.url, "dawum.de")) ==> caption == src.url
  {
    match src.name
    case None =>
      if Contains(src.url, "wahl.tagesschau.de") then TagesschauLabel
      else if Contains(src.url, "wikipedia") then WikipediaLabel
      else if Contains(src.url, "dawum.de") then DawumLabel
      else src.url
    case Some(n) =>
      if !preliminary then "Wahlergebnisse: " + n else "Wahlprognose: " + n
  }

  lemma {:induction false} ContainsPrefix(s: string, t: string, u: string)
    ensures Contains(s + t + u, t)
    decreases |s|
  {
    if s == [] {
      assert t <= s + t + u;
    } else {
      assert (s + t + u)[1..] == s[1..] + t + u;
      ContainsPrefix(s[1..], t, u);
    }
  }

  /** A tagesschau address wins even if it also mentions Wikipedia. */
  lemma TagesschauFirst(prefix: string, rest: string)
    ensures ResultsLabel(ResultsSource(None, prefix + "wahl.tagesschau.de" + rest), false) == TagesschauLabel
  {
    ContainsPrefix(prefix, "wahl.tagesschau.de", rest);
  }

  /** `collectSources()`: nothing without an election, otherwise the
      Wahl-o-Mat credit followed by the results credit. */
  function CollectSources(election: Option<Election>): (sources: seq<Credit>)
    ensures election.None? ==> sources == []
    ensures election.Some? ==>
      && |sources| == 2
      && sources[0] == WahlOMatCredit(election.value.source, election.value.title)
      && sources[1] == ResultsCredit(election.value.resultsSource.url,
                                     ResultsLabel(election.value.resultsSource, election.value.preliminary))
  {
    match election
    case None => []
    case Some(e) =>
      [WahlOMatCredit(e.source, e.title),
       ResultsCredit(e.resultsSource.url, ResultsLabel(e.resultsSource, e.preliminary))]
  }

  // -----------------------------------------------------------------------
  // Subheader

  /** Which of the four subheader texts is shown, with what it inserts:
      the embedded view names the number of theses (and links to the
      method), the full page names the source of a forecast. */
  datatype Subheader =
    | Embedded(preliminary: bool, count: string)
    | Standalone(preliminary: bool, sourceName: Option<string>)

  /** A thesis count as the subheader prints it: "..." while there is none. */
  function CountText(numTheses: nat): (s: string)
    ensures s == "..." <==> numTheses == 0
  {
    if numTheses == 0 then "..."
    else
      var s := NatToString(numTheses);
      assert IsDigit(s[0]) && !IsDigit('.');
      s
  }

  function ElectionSubheader(iframe: bool, preliminary: bool, sourceName: string, numTheses: nat): (h: Subheader)
    ensures iframe <==> h.Embedded?
    ensures h.preliminary == preliminary
    ensures h.Embedded? ==> h.count == CountText(numTheses)
    ensures h.Standalone? ==> (h.sourceName.Some? <==> preliminary)
    ensures h.Standalone? && preliminary ==> h.sourceName == Some(sourceName)
  {
    if iframe then Embedded(preliminary, CountText(numTheses))
    else Standalone(preliminary, if preliminary then Some(sourceName) else None)
  }
}
