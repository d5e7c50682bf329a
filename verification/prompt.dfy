/** The "Project Answers" block of the classification prompt: every plain
    answer of the application form as a `Q:`/`A:` pair, encrypted answers
    left out, joined with newlines. */
module Prompt {
  import opened Records

  /** One answer rendered as `Q: <question>\nA: <answer>`. */
  function FormatAnswer(question: string, answer: string): (s: string)
    ensures |s| == |question| + |answer| + 7
    ensures s[..3] == "Q: " && s[3..3 + |question|] == question
    ensures s[3 + |question|..7 + |question|] == "\nA: " && s[7 + |question|..] == answer
  {
    "Q: " + question + "\nA: " + answer
  }

  /** The plain answers, in form order, as (question, answer) pairs: the
      reference definition the rendered block is checked against. */
  function PlainPairs(answers: seq<Answer>): (r: seq<(string, string)>)
    ensures forall p :: p in r ==> PlainAnswer(p.0, p.1) in answers
    ensures forall k :: 0 <= k < |answers| && answers[k].PlainAnswer? ==>
      (answers[k].question, answers[k].answer) in r
  {
    if answers == [] then []
    else
      var rest := PlainPairs(answers[1..]);
      match answers[0]
      case PlainAnswer(q, a) => [(q, a)] + rest
      case EncryptedAnswer(_, _) => rest
  }

  /** `answers.flatMap(answer => "answer" in answer ? [Q/A] : [])`: one
      line per plain answer, in order, each the rendering of that answer. */
  function AnswerLines(answers: seq<Answer>): (r: seq<string>)
    ensures |r| == |PlainPairs(answers)|
    ensures forall k :: 0 <= k < |r| ==>
      r[k] == FormatAnswer(PlainPairs(answers)[k].0, PlainPairs(answers)[k].1)
  {
    if answers == [] then []
    else
      var rest := AnswerLines(answers[1..]);
      match answers[0]
      case PlainAnswer(q, a) => [FormatAnswer(q, a)] + rest
      case EncryptedAnswer(_, _) => rest
  }

  /** `Array.prototype.join(sep)`: the empty list joins to the empty
      string, a single element to itself. */
  function Join(lines: seq<string>, sep: string): (s: string)
    ensures |lines| == 1 ==> s == lines[0]
    ensures lines == [] ==> s == ""
  {
    if lines == [] then ""
    else if |lines| == 1 then lines[0]
    else lines[0] + sep + Join(lines[1..], sep)
  }

  /** `String.prototype.split(c)`: the pieces between occurrences of `c`;
      the empty string splits into one empty piece. */
  function Split(s: string, c: char): (r: seq<string>)
    ensures |r| >= 1
  {
    if s == [] then [""]
    else
      var rest := Split(s[1..], c);
      if s[0] == c then [""] + rest
      else [[s[0]] + rest[0]] + rest[1..]
  }

  /** The whole "Project Answers" block. */
  function ProjectAnswers(answers: seq<Answer>): string {
    Join(AnswerLines(answers), "\n")
  }

  /** The block read line by line: a `Q:` and an `A:` line per plain answer. */
  function QALines(pairs: seq<(string, string)>): (r: seq<string>)
    ensures |r| == 2 * |pairs|
    ensures forall k :: 0 <= k < |pairs| ==>
      r[2 * k] == "Q: " + pairs[k].0 && r[2 * k + 1] == "A: " + pairs[k].1
  {
    if pairs == [] then []
    else ["Q: " + pairs[0].0, "A: " + pairs[0].1] + QALines(pairs[1..])
  }

  predicate NoNewline(s: string) {
    '\n' !in s
  }

  /** A single-line question and answer read back as their `Q:` and `A:`
      lines. */
  lemma FormatAnswerSplit(question: string, answer: string)
    requires NoNewline(question) && NoNewline(answer)
    ensures Split(FormatAnswer(question, answer), '\n') == ["Q: " + question, "A: " + answer]
  {
    var q, a := "Q: " + question, "A: " + answer;
    assert '\n' !in q && '\n' !in a;
    assert FormatAnswer(question, answer) == q + ['\n'] + a;
    SplitFirst(q, '\n', a);
    SplitSingle(a, '\n');
  }

  /** Every plain question and answer is a single line. */
  predicate SingleLinePairs(pairs: seq<(string, string)>) {
    forall k :: 0 <= k < |pairs| ==> NoNewline(pairs[k].0) && NoNewline(pairs[k].1)
  }

  // ---------------------------------------------------------------------
  // Filtering

  /** Rendering distributes over concatenation of forms. */
  lemma {:induction false} AnswerLinesAppend(xs: seq<Answer>, ys: seq<Answer>)
    ensures AnswerLines(xs + ys) == AnswerLines(xs) + AnswerLines(ys)
  {
    if xs != [] {
      assert (xs + ys)[1..] == xs[1..] + ys;
      AnswerLinesAppend(xs[1..], ys);
    } else {
      assert xs + ys == ys;
    }
  }

  /** An encrypted answer contributes nothing, wherever it sits. */
  lemma EncryptedOmitted(xs: seq<Answer>, q: string, e: string, ys: seq<Answer>)
    ensures ProjectAnswers(xs + [EncryptedAnswer(q, e)] + ys) == ProjectAnswers(xs + ys)
  {
    AnswerLinesAppend(xs + [EncryptedAnswer(q, e)], ys);
    AnswerLinesAppend(xs, [EncryptedAnswer(q, e)]);
    AnswerLinesAppend(xs, ys);
    assert [EncryptedAnswer(q, e)][1..] == [];
    assert AnswerLines([EncryptedAnswer(q, e)]) == [];
    assert AnswerLines(xs) + [] == AnswerLines(xs);
    assert AnswerLines(xs + [EncryptedAnswer(q, e)] + ys) == AnswerLines(xs + ys);
  }

  /** A form with no plain answer renders as the empty block. */
  lemma NoPlainAnswersEmpty(answers: seq<Answer>)
    requires forall k :: 0 <= k < |answers| ==> answers[k].EncryptedAnswer?
    ensures ProjectAnswers(answers) == ""
  {
    if answers != [] {
      NoPlainAnswersEmpty(answers[1..]);
    }
  }

  // ---------------------------------------------------------------------
  // Reading the block back

  /** Joining commutes with prepending a line to a non-empty list. */
  lemma JoinCons(x: string, lines: seq<string>, sep: string)
    requires lines != []
    ensures Join([x] + lines, sep) == x + sep + Join(lines, sep)
  {
    assert ([x] + lines)[1..] == lines;
  }

  /** Splitting a line-free piece gives that piece. */
  lemma {:induction false} SplitSingle(s: string, c: char)
    requires c !in s
    ensures Split(s, c) == [s]
  {
    if s != [] {
      SplitSingle(s[1..], c);
      assert [s[0]] + s[1..] == s;
    }
  }

  /** Splitting stops at the first separator. */
  lemma {:induction false} SplitFirst(l: string, c: char, t: string)
    requires c !in l
    ensures Split(l + [c] + t, c) == [l] + Split(t, c)
  {
    if l == [] {
      assert l + [c] + t == [c] + t;
      assert ([c] + t)[1..] == t;
    } else {
      assert (l + [c] + t)[1..] == l[1..] + [c] + t;
      SplitFirst(l[1..], c, t);
      assert [l[0]] + l[1..] == l;
    }
  }

  /** `split` undoes `join` when no line holds the separator and there is
      at least one line. */
  lemma {:induction false} SplitJoin(lines: seq<string>, c: char)
    requires lines != []
    requires forall k :: 0 <= k < |lines| ==> c !in lines[k]
    ensures Split(Join(lines, [c]), c) == lines
  {
    if |lines| == 1 {
      SplitSingle(lines[0], c);
    } else {
      SplitJoin(lines[1..], c);
      SplitFirst(lines[0], c, Join(lines[1..], [c]));
      assert [lines[0]] + lines[1..] == lines;
    }
  }

  /** Splitting the first line of a join in two at the separator. */
  lemma JoinSplitHead(q: string, a: string, rendered: seq<string>, rest: seq<string>)
    requires rendered != [] && rest != []
    requires Join(rendered, "\n") == Join(rest, "\n")
    ensures Join([q + "\n" + a] + rendered, "\n") == Join([q] + ([a] + rest), "\n")
  {
    var j := Join(rest, "\n");
    JoinCons(q, [a] + rest, "\n");
    JoinCons(a, rest, "\n");
    JoinCons(q + "\n" + a, rendered, "\n");
    assert q + "\n" + (a + "\n" + j) == q + "\n" + a + "\n" + j;
  }

  /** Each rendered answer is the join of its `Q:` and `A:` lines. */
  lemma {:induction false} JoinRendered(pairs: seq<(string, string)>)
    requires pairs != []
    ensures Join(RenderedPairs(pairs), "\n") == Join(QALines(pairs), "\n")
  {
    var q := "Q: " + pairs[0].0;
    var a := "A: " + pairs[0].1;
    assert FormatAnswer(pairs[0].0, pairs[0].1) == q + "\n" + a;
    if |pairs| == 1 {
      assert QALines(pairs) == [q] + ([a] + []);
      JoinCons(q, [a], "\n");
    } else {
      JoinRendered(pairs[1..]);
      JoinSplitHead(q, a, RenderedPairs(pairs[1..]), QALines(pairs[1..]));
    }
  }

  /** The pairs rendered one line each. */
  function RenderedPairs(pairs: seq<(string, string)>): (r: seq<string>)
    ensures |r| == |pairs|
    ensures forall k :: 0 <= k < |pairs| ==> r[k] == FormatAnswer(pairs[k].0, pairs[k].1)
  {
    if pairs == [] then []
    else [FormatAnswer(pairs[0].0, pairs[0].1)] + RenderedPairs(pairs[1..])
  }

  /** The rendered lines are the rendering of the plain pairs. */
  lemma AnswerLinesRendered(answers: seq<Answer>)
    ensures AnswerLines(answers) == RenderedPairs(PlainPairs(answers))
  {
  }

  /** Single-line questions and answers give single-line `Q:`/`A:` lines. */
  lemma QALinesSingle(pairs: seq<(string, string)>)
    requires SingleLinePairs(pairs)
    ensures forall k :: 0 <= k < |QALines(pairs)| ==> '\n' !in QALines(pairs)[k]
  {
    var lines := QALines(pairs);
    forall k | 0 <= k < |lines| ensures '\n' !in lines[k] {
      var m := k / 2;
      assert NoNewline(pairs[m].0) && NoNewline(pairs[m].1);
      if k == 2 * m {
        assert lines[k] == "Q: " + pairs[m].0;
      } else {
        assert lines[k] == "A: " + pairs[m].1;
      }
    }
  }

  /** Read line by line, the block is exactly one `Q:` and one `A:` line
      per plain answer, in form order, provided questions and answers are
      single lines and the form has a plain answer. */
  lemma ProjectAnswersReadBack(answers: seq<Answer>)
    requires PlainPairs(answers) != []
    requires SingleLinePairs(PlainPairs(answers))
    ensures Split(ProjectAnswers(answers), '\n') == QALines(PlainPairs(answers))
  {
    var pairs := PlainPairs(answers);
    AnswerLinesRendered(answers);
    JoinRendered(pairs);
    QALinesSingle(pairs);
    SplitJoin(QALines(pairs), '\n');
  }
}
