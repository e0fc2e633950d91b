/** The question-source client: the fixed category table, the Fisher-Yates
    shuffle of a question's answers, and the validation and normalisation
    of an OpenTriviaDB reply. The HTTP request itself is not modelled: a
    request is the triple (amount, category, difficulty) and its reply is
    given. */
module OpenTdb {
  import opened Common
  import opened Text
  import opened Types

  datatype Category = Category(id: int, name: string)

  /** OPEN_TDB_CATEGORIES, in table order. */
  const Categories: seq<Category> := [
    Category(9, "General Knowledge"),
    Category(10, "Books"),
    Category(11, "Film"),
    Category(12, "Music"),
    Category(14, "Television"),
    Category(15, "Video Games"),
    Category(17, "Science & Nature"),
    Category(18, "Computers"),
    Category(19, "Mathematics"),
    Category(20, "Mythology"),
    Category(21, "Sports"),
    Category(22, "Geography"),
    Category(23, "History"),
    Category(24, "Politics"),
    Category(25, "Art"),
    Category(27, "Animals"),
    Category(28, "Vehicles"),
    Category(29, "Comics"),
    Category(30, "Gadgets"),
    Category(31, "Anime & Manga"),
    Category(32, "Cartoon & Animations")
  ]

  /** The table has 21 entries and no id occurs twice. */
  lemma CategoryTableShape()
    ensures |Categories| == 21
    ensures forall i, j :: 0 <= i < j < |Categories| ==> Categories[i].id != Categories[j].id
  {
  }

  /** The name of the first table entry with the given id, if any. */
  function FindCategory(table: seq<Category>, id: int): (r: Option<string>)
    ensures r.Some? ==> exists k :: 0 <= k < |table| && table[k].id == id && table[k].name == r.value
                                 && forall m :: 0 <= m < k ==> table[m].id != id
    ensures r.None? <==> forall k :: 0 <= k < |table| ==> table[k].id != id
  {
    if table == [] then None
    else if table[0].id == id then Some(table[0].name)
    else FindCategory(table[1..], id)
  }

  /** categoryNameById: the table's name for a known id, "Category {id}"
      for any other. */
  function CategoryNameById(id: int): string
  {
    match FindCategory(Categories, id)
    case Some(name) => name
    case None => "Category " + IntText(id)
  }

  /** The table's name for an id in the table (ids there are distinct, so
      the first match is the only one), the synthesized label otherwise. */
  lemma CategoryNameByIdSpec(id: int)
    ensures forall k :: 0 <= k < |Categories| && Categories[k].id == id ==> CategoryNameById(id) == Categories[k].name
    ensures (forall k :: 0 <= k < |Categories| ==> Categories[k].id != id) ==> CategoryNameById(id) == "Category " + IntText(id)
  {
    CategoryTableShape();
  }

  // ---------------------------------------------------------------------
  // Shuffle

  /** A value of Math.random(): a real number in [0, 1). */
  type Unit = r: real | 0.0 <= r < 1.0

  /** Math.floor(Math.random() * (i + 1)): always an index in [0, i]. */
  function SwapIndex(u: Unit, i: nat): (j: nat)
    ensures j <= i
  {
    var x := u * (i + 1) as real;
    assert 0.0 <= x;
    assert x < (i + 1) as real by {
      assert u * (i + 1) as real < 1.0 * (i + 1) as real;
    }
    x.Floor
  }

  /** The destructuring swap [a[i], a[j]] = [a[j], a[i]]. */
  function Swapped<T>(s: seq<T>, i: nat, j: nat): (r: seq<T>)
    requires i < |s| && j < |s|
  {
    s[i := s[j]][j := s[i]]
  }

  lemma SwappedIsPermutation<T>(s: seq<T>, i: nat, j: nat)
    requires i < |s| && j < |s|
    ensures |Swapped(s, i, j)| == |s|
    ensures multiset(Swapped(s, i, j)) == multiset(s)
  {
    var t := s[i := s[j]];
    assert multiset(t) == multiset(s) - multiset{s[i]} + multiset{s[j]};
    assert multiset(t[j := s[i]]) == multiset(t) - multiset{t[j]} + multiset{s[i]};
  }

  /** The remaining steps i, i-1, ..., 1 of the descending Fisher-Yates loop
      over a list of length |s|; step i draws random number |s|-1-i. */
  function ShuffleSteps<T>(s: seq<T>, random: nat -> Unit, i: nat): (r: seq<T>)
    requires i < |s|
    decreases i
  {
    if i == 0 then s
    else ShuffleSteps(Swapped(s, i, SwapIndex(random(|s| - 1 - i), i)), random, i - 1)
  }

  /** shuffle(arr) when Math.random() returns random(0), random(1), ... */
  function Shuffled<T>(s: seq<T>, random: nat -> Unit): (r: seq<T>)
  {
    if s == [] then s else ShuffleSteps(s, random, |s| - 1)
  }

  lemma {:induction false} ShuffleStepsIsPermutation<T>(s: seq<T>, random: nat -> Unit, i: nat)
    requires i < |s|
    ensures |ShuffleSteps(s, random, i)| == |s|
    ensures multiset(ShuffleSteps(s, random, i)) == multiset(s)
    decreases i
  {
    if i > 0 {
      var j := SwapIndex(random(|s| - 1 - i), i);
      SwappedIsPermutation(s, i, j);
      ShuffleStepsIsPermutation(Swapped(s, i, j), random, i - 1);
    }
  }

  /** The shuffle returns a permutation of its input. */
  lemma ShuffledIsPermutation<T>(s: seq<T>, random: nat -> Unit)
    ensures |Shuffled(s, random)| == |s|
    ensures multiset(Shuffled(s, random)) == multiset(s)
  {
    if s != [] {
      ShuffleStepsIsPermutation(s, random, |s| - 1);
    }
  }

  /** shuffle: copies its argument (arr.slice()) into a fresh array and
      swaps entries of the copy in place, from the last index down to 1. */
  method Shuffle<T>(arr: seq<T>, random: nat -> Unit) returns (r: seq<T>)
    ensures r == Shuffled(arr, random)
    ensures |r| == |arr| && multiset(r) == multiset(arr)
  {
    var a := new T[|arr|](k requires 0 <= k < |arr| => arr[k]);
    assert a[..] == arr;
    var i := a.Length - 1;
    while i > 0
      invariant a.Length == |arr| && -1 <= i < a.Length
      invariant i == -1 ==> arr == []
      invariant i >= 0 ==> ShuffleSteps(a[..], random, i) == Shuffled(arr, random)
    {
      var j := SwapIndex(random(a.Length - 1 - i), i);
      ghost var before := a[..];
      assert ShuffleSteps(before, random, i) == ShuffleSteps(Swapped(before, i, j), random, i - 1);
      a[i], a[j] := a[j], a[i];
      assert a[..] == Swapped(before, i, j);
      i := i - 1;
    }
    r := a[..];
    ShuffledIsPermutation(arr, random);
  }

  // ---------------------------------------------------------------------
  // Reply validation and normalisation

  /** One entry of the reply's results; incorrect_answers may be missing. */
  datatype RawResult = RawResult(question: string, correctAnswer: string, incorrectAnswers: Option<seq<string>>)

  /** The parameters of one request (the type=multiple filter is fixed). */
  datatype Request = Request(amount: int, categoryId: int, difficulty: Difficulty)

  /** What one request yields: a rejected promise (fetch fails on the
      network, or res.json() cannot parse the body) carrying the browser's
      error message; a response whose status is not ok; or a JSON body
      whose results field may be missing or not an array (None). */
  datatype Reply = Rejected(message: string) | NotOk | Payload(responseCode: int, results: Option<seq<RawResult>>)

  /** The error fetchOpenTDBQuestions throws: the rejection passed through
      unchanged, or one of the two errors it raises itself. */
  datatype FetchError = Thrown(message: string) | SourceUnavailable | NoResults

  /** The error's message property. */
  function ErrorMessage(e: FetchError): (m: string)
    ensures e.Thrown? ==> m == e.message
    ensures !e.Thrown? ==> m != ""
  {
    match e
    case Thrown(message) => message
    case SourceUnavailable => "Failed to fetch questions from OpenTriviaDB"
    case NoResults => "OpenTriviaDB returned no results for the given parameters."
  }

  /** A reply the client accepts. */
  predicate Usable(reply: Reply)
  {
    reply.Payload? && reply.responseCode == 0 && reply.results.Some?
  }

  function MapDecode(xs: seq<string>, decode: string -> string): (r: seq<string>)
    ensures |r| == |xs| && forall k :: 0 <= k < |xs| ==> r[k] == decode(xs[k])
  {
    seq(|xs|, k requires 0 <= k < |xs| => decode(xs[k]))
  }

  /** The normalised form of one result: decoded texts, r.incorrect_answers || [],
      and the combined answers shuffled once. */
  function Normalize(raw: RawResult, decode: string -> string, id: string, random: nat -> Unit): (q: Question)
    ensures q.id == id && q.question == decode(raw.question)
    ensures q.correctAnswer == decode(raw.correctAnswer)
    ensures raw.incorrectAnswers.None? ==> q.incorrectAnswers == [] && q.allAnswers == [q.correctAnswer]
    ensures raw.incorrectAnswers.Some? ==> q.incorrectAnswers == MapDecode(raw.incorrectAnswers.value, decode)
    ensures multiset(q.allAnswers) == multiset([q.correctAnswer] + q.incorrectAnswers)
    ensures q.correctAnswer in q.allAnswers
  {
    var correct := decode(raw.correctAnswer);
    var incorrect := match raw.incorrectAnswers
      case Some(xs) => MapDecode(xs, decode)
      case None => [];
    var all := Shuffled([correct] + incorrect, random);
    ShuffledIsPermutation([correct] + incorrect, random);
    assert correct in multiset(all);
    Question(id, decode(raw.question), correct, incorrect, all)
  }

  /** The post-request part of fetchOpenTDBQuestions: question k gets id
      ids(k) and draws its random numbers from random(k, _). */
  function FetchQuestions(reply: Reply, decode: string -> string, ids: nat -> string,
                          random: (nat, nat) -> Unit): (r: Result<seq<Question>, FetchError>)
    ensures reply.Rejected? ==> r == Failure(Thrown(reply.message))
    ensures reply.NotOk? ==> r == Failure(SourceUnavailable)
    ensures reply.Payload? && !Usable(reply) ==> r == Failure(NoResults)
    ensures r.Success? <==> Usable(reply)
    ensures r.Success? ==> |r.value| == |reply.results.value|
    ensures r.Success? ==> forall k :: 0 <= k < |r.value| ==>
              r.value[k] == Normalize(reply.results.value[k], decode, ids(k), n => random(k, n))
  {
    match reply
    case Rejected(message) => Failure(Thrown(message))
    case NotOk => Failure(SourceUnavailable)
    case Payload(code, results) =>
      if code != 0 || results.None? then Failure(NoResults)
      else
        var rs := results.value;
        Success(seq(|rs|, k requires 0 <= k < |rs| => Normalize(rs[k], decode, ids(k), n => random(k, n))))
  }
}
