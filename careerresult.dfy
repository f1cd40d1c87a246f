/**
 * The result page of CareerResult.tsx: the maximum score, the score rows
 * sorted by descending score, the career display names, the bar fraction
 * of each row and the numbered skill and next-step lists.
 */
module CareerResultView {
  import opened Careers
  import opened Scoring

  /** One entry of `Object.entries(scores)`. */
  datatype Row = Row(career: CareerId, score: nat)

  /** The entries of a score record, in the record's key order. */
  function Entries(s: ScoreSheet): (rows: seq<Row>)
    ensures |rows| == |CareerOrder|
    ensures forall i :: 0 <= i < |rows| ==> rows[i] == Row(CareerOrder[i], s.Get(CareerOrder[i]))
  {
    [Row(Researcher, s.researcher), Row(DataScientist, s.dataScientist),
     Row(NlpEngineer, s.nlpEngineer), Row(PromptEngineer, s.promptEngineer)]
  }

  /** Every career has exactly one entry, carrying its score. */
  lemma EntriesCoverCareers(s: ScoreSheet)
    ensures forall c :: Row(c, s.Get(c)) in Entries(s)
    ensures forall r :: r in Entries(s) ==> r.score == s.Get(r.career)
    ensures RowsRankIncreasing(Entries(s))
  {
    forall c ensures Row(c, s.Get(c)) in Entries(s) {
      assert Entries(s)[Rank(c)] == Row(c, s.Get(c));
    }
  }

  // ---------------------------------------------------------------------------
  // maxScore

  /** `Math.max(...xs)` for a non-empty list. */
  function MaxOf(xs: seq<nat>): (m: nat)
    requires xs != []
    ensures m in xs
    ensures forall x :: x in xs ==> x <= m
  {
    if |xs| == 1 then xs[0]
    else
      var rest := MaxOf(xs[1..]);
      assert forall x :: x in xs ==> x == xs[0] || x in xs[1..];
      if xs[0] >= rest then xs[0] else rest
  }

  /** `maxScore`: the largest of the record's four values. */
  function MaxScore(s: ScoreSheet): (m: nat)
    ensures forall c :: s.Get(c) <= m
    ensures exists c :: s.Get(c) == m
  {
    var values := [s.researcher, s.dataScientist, s.nlpEngineer, s.promptEngineer];
    var m := MaxOf(values);
    assert forall c :: s.Get(c) in values;
    assert m == values[0] || m == values[1] || m == values[2] || m == values[3];
    assert m == values[0] ==> s.Get(Researcher) == m;
    assert m == values[1] ==> s.Get(DataScientist) == m;
    assert m == values[2] ==> s.Get(NlpEngineer) == m;
    assert m == values[3] ==> s.Get(PromptEngineer) == m;
    m
  }

  /** The maximum is the headline winner's score. */
  lemma MaxScoreIsWinnerScore(s: ScoreSheet)
    ensures MaxScore(s) == s.Get(TopCareer(s))
  {
    var m := MaxScore(s);
    var c :| s.Get(c) == m;
    assert s.Get(c) <= s.Get(TopCareer(s));
  }

  // ---------------------------------------------------------------------------
  // The sorted rows

  /** Non-increasing score order. */
  predicate NonIncreasing(rows: seq<Row>)
  {
    forall i, j :: 0 <= i < j < |rows| ==> rows[j].score <= rows[i].score
  }

  /** `a` may stand before `b`: it scores more, or as much with a lower career rank. */
  predicate Precedes(a: Row, b: Row)
  {
    b.score < a.score || (b.score == a.score && Rank(a.career) < Rank(b.career))
  }

  /** Non-increasing score order, equal scores in increasing career rank. */
  predicate ScoreThenRank(rows: seq<Row>)
  {
    forall i, j :: 0 <= i < j < |rows| ==> Precedes(rows[i], rows[j])
  }

  /** Careers listed with strictly increasing rank. */
  predicate RowsRankIncreasing(rows: seq<Row>)
  {
    forall i, j :: 0 <= i < j < |rows| ==> Rank(rows[i].career) < Rank(rows[j].career)
  }

  /**
   * One insertion step of a stable descending sort: `r`, which came before
   * every row of `rows` in the input, goes in front of the first row that
   * does not score strictly more.
   */
  function Insert(r: Row, rows: seq<Row>): (out: seq<Row>)
    ensures multiset(out) == multiset(rows) + multiset{r}
    ensures |out| == |rows| + 1
  {
    if rows == [] || rows[0].score <= r.score then [r] + rows
    else
      assert rows == [rows[0]] + rows[1..];
      [rows[0]] + Insert(r, rows[1..])
  }

  /**
   * `.sort(([,a], [,b]) => b - a)`: the built-in sort is stable, so it is the
   * stable sort by descending score, written here as an insertion sort.
   */
  function SortByScore(rows: seq<Row>): (out: seq<Row>)
    ensures multiset(out) == multiset(rows)
    ensures |out| == |rows|
  {
    if rows == [] then []
    else
      assert rows == [rows[0]] + rows[1..];
      Insert(rows[0], SortByScore(rows[1..]))
  }

  /** A row of `Insert(r, rows)` is `r` or a row of `rows`. */
  lemma InsertMembers(r: Row, rows: seq<Row>, x: Row)
    requires x in Insert(r, rows)
    ensures x == r || x in rows
  {
    assert x in multiset(Insert(r, rows));
  }

  /** A list headed by `x` is non-increasing when its tail is and `x` scores at least as much as every later row. */
  lemma ConsNonIncreasing(x: Row, ys: seq<Row>)
    requires NonIncreasing(ys)
    requires forall y :: y in ys ==> y.score <= x.score
    ensures NonIncreasing([x] + ys)
  {
    var xs := [x] + ys;
    forall i, j | 0 <= i < j < |xs| ensures xs[j].score <= xs[i].score {
      assert xs[j] == ys[j - 1];
      if i > 0 { assert xs[i] == ys[i - 1]; }
    }
  }

  /** The same for the order by score, then rank. */
  lemma ConsScoreThenRank(x: Row, ys: seq<Row>)
    requires ScoreThenRank(ys)
    requires forall y :: y in ys ==> Precedes(x, y)
    ensures ScoreThenRank([x] + ys)
  {
    var xs := [x] + ys;
    forall i, j | 0 <= i < j < |xs| ensures Precedes(xs[i], xs[j]) {
      assert xs[j] == ys[j - 1];
      if i > 0 { assert xs[i] == ys[i - 1]; }
    }
  }

  /** The tail of an ordered list is ordered, and its head precedes every later row. */
  lemma TailScoreThenRank(rows: seq<Row>)
    requires rows != [] && ScoreThenRank(rows)
    ensures ScoreThenRank(rows[1..])
    ensures forall y :: y in rows[1..] ==> Precedes(rows[0], y)
  {
    forall i, j | 0 <= i < j < |rows[1..]| ensures Precedes(rows[1..][i], rows[1..][j]) {
      assert rows[1..][i] == rows[i + 1] && rows[1..][j] == rows[j + 1];
    }
    forall y | y in rows[1..] ensures Precedes(rows[0], y) {
      var k :| 0 <= k < |rows[1..]| && rows[1..][k] == y;
      assert rows[k + 1] == y;
    }
  }

  /** The tail of a non-increasing list is non-increasing and scores at most its head. */
  lemma TailNonIncreasing(rows: seq<Row>)
    requires rows != [] && NonIncreasing(rows)
    ensures NonIncreasing(rows[1..])
    ensures forall y :: y in rows[1..] ==> y.score <= rows[0].score
  {
    forall i, j | 0 <= i < j < |rows[1..]| ensures rows[1..][j].score <= rows[1..][i].score {
      assert rows[1..][i] == rows[i + 1] && rows[1..][j] == rows[j + 1];
    }
    forall y | y in rows[1..] ensures y.score <= rows[0].score {
      var k :| 0 <= k < |rows[1..]| && rows[1..][k] == y;
      assert rows[k + 1] == y;
    }
  }

  /** Inserting into a sorted list keeps it sorted. */
  lemma {:induction false} InsertNonIncreasing(r: Row, rows: seq<Row>)
    requires NonIncreasing(rows)
    ensures NonIncreasing(Insert(r, rows))
  {
    if rows == [] || rows[0].score <= r.score {
      if rows != [] { TailNonIncreasing(rows); }
      ConsNonIncreasing(r, rows);
    } else {
      TailNonIncreasing(rows);
      InsertNonIncreasing(r, rows[1..]);
      forall y | y in Insert(r, rows[1..]) ensures y.score <= rows[0].score {
        InsertMembers(r, rows[1..], y);
      }
      ConsNonIncreasing(rows[0], Insert(r, rows[1..]));
    }
  }

  /** The sort yields non-increasing scores. */
  lemma {:induction false} SortNonIncreasing(rows: seq<Row>)
    ensures NonIncreasing(SortByScore(rows))
  {
    if rows != [] {
      SortNonIncreasing(rows[1..]);
      InsertNonIncreasing(rows[0], SortByScore(rows[1..]));
    }
  }

  /**
   * Inserting a row whose rank is below every rank in a list ordered by
   * score then rank keeps that order.
   */
  lemma {:induction false} InsertScoreThenRank(r: Row, rows: seq<Row>)
    requires ScoreThenRank(rows)
    requires forall x :: x in rows ==> Rank(r.career) < Rank(x.career)
    ensures ScoreThenRank(Insert(r, rows))
  {
    if rows == [] || rows[0].score <= r.score {
      if rows != [] { TailScoreThenRank(rows); }
      forall y | y in rows ensures Precedes(r, y) {
        if y != rows[0] { assert y in rows[1..]; }
      }
      ConsScoreThenRank(r, rows);
    } else {
      TailScoreThenRank(rows);
      InsertScoreThenRank(r, rows[1..]);
      forall y | y in Insert(r, rows[1..]) ensures Precedes(rows[0], y) {
        InsertMembers(r, rows[1..], y);
      }
      ConsScoreThenRank(rows[0], Insert(r, rows[1..]));
    }
  }

  /**
   * Stability: when the input lists the careers in increasing rank, the
   * output ties are in increasing rank too, so the order is by score, then
   * by input position.
   */
  lemma {:induction false} SortScoreThenRank(rows: seq<Row>)
    requires RowsRankIncreasing(rows)
    ensures ScoreThenRank(SortByScore(rows))
  {
    if rows != [] {
      assert RowsRankIncreasing(rows[1..]) by {
        forall i, j | 0 <= i < j < |rows[1..]| ensures Rank(rows[1..][i].career) < Rank(rows[1..][j].career) {
          assert rows[1..][i] == rows[i + 1] && rows[1..][j] == rows[j + 1];
        }
      }
      SortScoreThenRank(rows[1..]);
      var sorted := SortByScore(rows[1..]);
      forall x | x in sorted ensures Rank(rows[0].career) < Rank(x.career) {
        assert x in multiset(sorted);
        var k :| 0 <= k < |rows[1..]| && rows[1..][k] == x;
        assert rows[k + 1] == x;
      }
      InsertScoreThenRank(rows[0], sorted);
    }
  }

  /** The rows of the "Career Match Scores" card. */
  function ScoreRows(s: ScoreSheet): seq<Row>
  {
    SortByScore(Entries(s))
  }

  /**
   * The rows are the four entries, each once with its own score, in
   * non-increasing score order with ties in key order.
   */
  lemma ScoreRowsOrdered(s: ScoreSheet)
    ensures |ScoreRows(s)| == 4
    ensures multiset(ScoreRows(s)) == multiset(Entries(s))
    ensures forall c :: Row(c, s.Get(c)) in ScoreRows(s)
    ensures forall r :: r in ScoreRows(s) ==> r.score == s.Get(r.career)
    ensures NonIncreasing(ScoreRows(s))
    ensures ScoreThenRank(ScoreRows(s))
  {
    EntriesCoverCareers(s);
    var rows := ScoreRows(s);
    forall c ensures Row(c, s.Get(c)) in rows {
      assert Row(c, s.Get(c)) in multiset(Entries(s));
    }
    forall r | r in rows ensures r.score == s.Get(r.career) {
      assert r in multiset(Entries(s));
    }
    SortNonIncreasing(Entries(s));
    SortScoreThenRank(Entries(s));
  }

  /**
   * The first row carries the maximum score and names the earliest career,
   * in key order, that reaches it.
   */
  lemma FirstRowIsEarliestMax(s: ScoreSheet)
    ensures ScoreRows(s) != []
    ensures ScoreRows(s)[0].score == MaxScore(s)
    ensures s.Get(ScoreRows(s)[0].career) == MaxScore(s)
    ensures forall c :: s.Get(c) == MaxScore(s) ==> Rank(ScoreRows(s)[0].career) <= Rank(c)
  {
    ScoreRowsOrdered(s);
    var rows := ScoreRows(s);
    TailScoreThenRank(rows);
    assert rows[0] in rows;
    var top :| s.Get(top) == MaxScore(s);
    FirstPrecedes(rows, Row(top, s.Get(top)));
    forall c | s.Get(c) == MaxScore(s) ensures Rank(rows[0].career) <= Rank(c) {
      FirstPrecedes(rows, Row(c, s.Get(c)));
    }
  }

  /** In an ordered list the first row is `x` or precedes it. */
  lemma FirstPrecedes(rows: seq<Row>, x: Row)
    requires rows != [] && x in rows
    requires forall y :: y in rows[1..] ==> Precedes(rows[0], y)
    ensures x == rows[0] || Precedes(rows[0], x)
  {
    if x != rows[0] {
      assert x in rows[1..];
    }
  }

  /**
   * The first row names the headline winner exactly when a single career
   * holds the maximum; on a tie the list starts with the earliest tied
   * career and the headline names the last one.
   */
  lemma FirstRowMatchesWinnerIffUniqueMax(s: ScoreSheet)
    ensures ScoreRows(s) != []
    ensures ScoreRows(s)[0].career == TopCareer(s) <==>
            (forall c :: s.Get(c) == MaxScore(s) ==> c == TopCareer(s))
  {
    FirstRowIsEarliestMax(s);
    MaxScoreIsWinnerScore(s);
    var top := TopCareer(s);
    forall c | s.Get(c) == MaxScore(s) ensures Rank(c) <= Rank(top) {
    }
    forall c | Rank(c) == Rank(top) ensures c == top {
      assert CareerOrder[Rank(c)] == c;
    }
  }

  /** With no answers the list starts with the AI Researcher row while the headline names the Prompt Engineer. */
  lemma EmptyAnswersLeadersDiffer()
    ensures ScoreRows(Score(map[]))[0].career == Researcher
    ensures TopCareer(Score(map[])) == PromptEngineer
  {
    EmptyAnswersPickPromptEngineer();
    FirstRowIsEarliestMax(Zero());
    assert Rank(ScoreRows(Zero())[0].career) <= Rank(Researcher);
  }

  // ---------------------------------------------------------------------------
  // Row captions and bars

  /** `careerNames`. */
  function CareerName(c: CareerId): string
  {
    match c
    case Researcher => "AI Researcher"
    case DataScientist => "Data Scientist"
    case NlpEngineer => "NLP Engineer"
    case PromptEngineer => "Prompt Engineer"
  }

  /** Every display name is the title of that career's profile. */
  lemma CareerNameIsTitle(c: CareerId)
    ensures CareerName(c) == CareerInfo(c).title
  {
  }

  /**
   * The name on the first score row is the headline title exactly when the
   * first row names the winner, that is, when no other career ties with it.
   */
  lemma FirstRowNameMatchesHeadline(s: ScoreSheet)
    ensures ScoreRows(s) != []
    ensures CareerName(ScoreRows(s)[0].career) == CareerInfo(TopCareer(s)).title <==>
            (forall c :: s.Get(c) == MaxScore(s) ==> c == TopCareer(s))
  {
    FirstRowMatchesWinnerIffUniqueMax(s);
    var first := ScoreRows(s)[0].career;
    CareerNameIsTitle(first);
    if first != TopCareer(s) {
      TitlesDistinct(first, TopCareer(s));
    }
  }

  /** A JavaScript number arising from `score / maxScore * 100`. */
  datatype Ratio = Finite(value: real) | NotANumber | Infinity

  /**
   * The bar value `(score / maxScore) * 100`: 0/0 is NaN and a positive
   * score over 0 is Infinity; otherwise the exact quotient (rounding of
   * the floating-point result is not modelled).
   */
  function BarValue(score: nat, max: nat): (v: Ratio)
    ensures v.Finite? <==> max > 0
    ensures max == 0 ==> (v.NotANumber? <==> score == 0)
    ensures v.Finite? ==> v.value * (max as real) == 100.0 * (score as real)
  {
    if max == 0 then (if score == 0 then NotANumber else Infinity)
    else Finite(100.0 * (score as real) / (max as real))
  }

  /** Bars of rows that do not exceed the maximum lie in [0, 100], and are full exactly at the maximum. */
  lemma BarWithinRange(score: nat, max: nat)
    requires 0 < max && score <= max
    ensures BarValue(score, max).Finite?
    ensures 0.0 <= BarValue(score, max).value <= 100.0
    ensures BarValue(score, max).value == 100.0 <==> score == max
  {
    var v := BarValue(score, max).value;
    if score == max {
      assert v * (max as real) == 100.0 * (max as real);
    } else {
      assert v * (max as real) < 100.0 * (max as real);
    }
  }

  /**
   * On every row of a score record the bar is a number in [0, 100] when some
   * career scored, the first row's bar is full, and with all scores 0 every
   * bar is NaN.
   */
  lemma RowBars(s: ScoreSheet)
    ensures forall r :: r in ScoreRows(s) && MaxScore(s) > 0 ==>
      BarValue(r.score, MaxScore(s)).Finite? && 0.0 <= BarValue(r.score, MaxScore(s)).value <= 100.0
    ensures MaxScore(s) > 0 ==> BarValue(ScoreRows(s)[0].score, MaxScore(s)) == Finite(100.0)
    ensures forall r :: r in ScoreRows(s) && MaxScore(s) == 0 ==> BarValue(r.score, MaxScore(s)) == NotANumber
  {
    ScoreRowsOrdered(s);
    FirstRowIsEarliestMax(s);
    forall r | r in ScoreRows(s) && MaxScore(s) > 0
      ensures BarValue(r.score, MaxScore(s)).Finite? && 0.0 <= BarValue(r.score, MaxScore(s)).value <= 100.0
    {
      BarWithinRange(r.score, MaxScore(s));
    }
    if MaxScore(s) > 0 {
      BarWithinRange(ScoreRows(s)[0].score, MaxScore(s));
    }
  }

  // ---------------------------------------------------------------------------
  // Numbered lists

  /** `items.map((item, index) => ... index + 1 ...)` from a given first number. */
  function NumberFrom<T>(items: seq<T>, first: nat): (r: seq<(nat, T)>)
    ensures |r| == |items|
    ensures forall i :: 0 <= i < |items| ==> r[i] == (first + i, items[i])
  {
    if items == [] then [] else [(first, items[0])] + NumberFrom(items[1..], first + 1)
  }

  /** The badge numbers of a list: 1, 2, ..., n. */
  function Numbered<T>(items: seq<T>): (r: seq<(nat, T)>)
    ensures |r| == |items|
    ensures forall i :: 0 <= i < |items| ==> r[i] == (i + 1, items[i])
  {
    NumberFrom(items, 1)
  }

  /** Dropping the badges gives back the list in its given order. */
  function Texts<T>(entries: seq<(nat, T)>): (r: seq<T>)
    ensures |r| == |entries|
    ensures forall i :: 0 <= i < |entries| ==> r[i] == entries[i].1
  {
    if entries == [] then [] else [entries[0].1] + Texts(entries[1..])
  }

  /** The numbered list shows every item in its given order, the i-th one with number i. */
  lemma NumberedRoundTrip<T>(items: seq<T>)
    ensures Texts(Numbered(items)) == items
    ensures forall i :: 0 <= i < |items| ==> Numbered(items)[i].0 == i + 1
  {
  }

  /** The skills and next steps of every profile are numbered 1 to 4. */
  lemma ProfileListsNumbered(c: CareerId)
    ensures |Numbered(CareerInfo(c).skills)| == 4 && |Numbered(CareerInfo(c).nextSteps)| == 4
    ensures forall i :: 0 <= i < 4 ==> Numbered(CareerInfo(c).skills)[i] == (i + 1, CareerInfo(c).skills[i])
    ensures forall i :: 0 <= i < 4 ==> Numbered(CareerInfo(c).nextSteps)[i] == (i + 1, CareerInfo(c).nextSteps[i])
  {
  }
}
