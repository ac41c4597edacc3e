/**
 The selection keys of the trip map: the four site categories and the two visit statuses,
 and the lists the filter state starts from.
 */
module Keys {
  import opened Seqs

  datatype Option<T> = None | Some(value: T)

  /** The closed set of site categories the icon resolver and the filter panel know. */
  datatype Category = Jyotirlinga | Jyotipeeth | Shaktipeeth | Krishna

  /** The string key a category is stored under in the dataset and the selection list. */
  function Key(c: Category): string {
    match c
    case Jyotirlinga => "jyotirlinga"
    case Jyotipeeth => "jyotipeeth"
    case Shaktipeeth => "shaktipeeth"
    case Krishna => "krishna"
  }

  /** The category a dataset key names, if it names one. */
  function ParseCategory(s: string): (r: Option<Category>)
    ensures r.Some? ==> Key(r.value) == s
    ensures r.None? ==> forall c :: Key(c) != s
  {
    if s == "jyotirlinga" then Some(Jyotirlinga)
    else if s == "jyotipeeth" then Some(Jyotipeeth)
    else if s == "shaktipeeth" then Some(Shaktipeeth)
    else if s == "krishna" then Some(Krishna)
    else None
  }

  /** Keys and categories are in one-to-one correspondence. */
  lemma ParseKey(c: Category)
    ensures ParseCategory(Key(c)) == Some(c)
  {
  }

  /** A record is "known" when its category key names one of the four categories. */
  predicate IsKnownCategory(s: string) {
    ParseCategory(s).Some?
  }

  /** The status key a record's `visited` flag is filtered under. */
  function StatusKey(visited: bool): (r: string)
    ensures r == "visited" || r == "notVisited"
    ensures r == "visited" <==> visited
  {
    if visited then "visited" else "notVisited"
  }

  /** The status key tells the two visit states apart. */
  lemma StatusKeyInjective(v1: bool, v2: bool)
    ensures StatusKey(v1) == StatusKey(v2) <==> v1 == v2
  {
  }

  /** Initial category selection: all four categories. */
  const DefaultCategories: seq<string> := ["jyotirlinga", "jyotipeeth", "shaktipeeth", "krishna"]

  /** Initial status selection: both statuses. */
  const DefaultStatuses: seq<string> := ["visited", "notVisited"]

  /** The default lists select exactly the known keys, each once. */
  lemma DefaultsSelectEveryKeyOnce()
    ensures forall s :: s in DefaultCategories <==> IsKnownCategory(s)
    ensures forall v :: StatusKey(v) in DefaultStatuses
    ensures forall s :: s in DefaultStatuses ==> exists v :: StatusKey(v) == s
    ensures NoDuplicates(DefaultCategories) && NoDuplicates(DefaultStatuses)
  {
    assert StatusKey(true) == DefaultStatuses[0];
    assert StatusKey(false) == DefaultStatuses[1];
  }
}
