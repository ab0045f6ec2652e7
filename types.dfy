/** Shapes of the JSON the Metawahl client receives from the API: an
    election's results keyed by party, and a thesis's party positions. */
module Types {
  import opened Common

  /** A party's answer to a thesis; `Missing` is what the client fills in
      for a party that gave none. */
  datatype Stance = Pro | Neutral | Contra | Missing

  /** One entry of `occasion.results`; `pct` is in hundredths of a percent. */
  datatype PartyResult = PartyResult(
    votes: int,
    pct: nat,
    name: Option<string>,
    linkedPosition: Option<string>)

  /** `occasion.results`: a JavaScript object, i.e. a map together with the
      order in which `Object.keys` lists its keys. */
  datatype Results = Results(keys: seq<string>, entries: map<string, PartyResult>) {
    predicate Valid() {
      && (forall i, j :: 0 <= i < j < |keys| ==> keys[i] != keys[j])
      && entries.Keys == set k | k in keys
    }
  }

  /** One entry of `thesis.positions`. */
  datatype Position = Position(party: string, value: Stance, text: Option<string>)

  datatype TagInfo = TagInfo(title: string, slug: string)
}
