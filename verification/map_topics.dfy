/**
 * The topic mapper (script_weekly/map_topics.py): every raw term, deduplicated and sorted, is
 * looked up among the provider's suggestions; the first suggestion that names a topic maps the
 * term, every other term is rejected with a reason. The mapped topics become the weekly master
 * list, one `id<TAB>title` line each.
 */
module MapTopics {
  import opened Wrappers
  import opened Seqs
  import opened Text
  import opened Lines
  import opened StringOrder
  import opened Reconcile

  // ---------------------------------------------------------------------------------------
  // Reading the raw terms

  /**
   * `read_raw` (lines 19-23): the stripped non-blank lines, each once, in increasing order. The
   * raw file must exist.
   */
  method ReadRaw(lines: seq<string>) returns (terms: seq<string>)
    ensures Sorted(terms) && Distinct(terms)
    ensures forall x :: x in terms <==> exists l :: l in lines && !IsBlank(l) && Strip(l) == x
    ensures forall x :: x in terms ==> Clean(x)
  {
    terms := SortedSet(ReadTopicSet(Some(lines)));
    forall x ensures x in terms <==> exists l :: l in lines && !IsBlank(l) && Strip(l) == x {
      ReadTopicSetMembers(Some(lines), x);
    }
    ReadTopicSetClean(lines);
  }

  /** Every term read is clean. */
  lemma ReadTopicSetClean(lines: seq<string>)
    ensures forall x :: x in ReadTopicSet(Some(lines)) ==> Clean(x)
  {
    NonBlankStrippedAllClean(lines);
    forall x | x in ReadTopicSet(Some(lines)) ensures Clean(x) {
      var i :| 0 <= i < |NonBlankStripped(lines)| && NonBlankStripped(lines)[i] == x;
    }
  }

  // ---------------------------------------------------------------------------------------
  // Mapping one term

  /** A suggestion: field name to value. */
  type Suggestion = map<string, string>

  /** What a suggestions lookup gives: the message of the exception it raised, or the suggestions. */
  datatype Lookup = Failed(msg: string) | Suggestions(items: seq<Suggestion>)

  const MidKey := "mid"
  const TitleKey := "title"
  const NoTopicMatch := "no_topic_match"

  /** `'mid' in s and s['mid'] and 'title' in s`: the suggestion names a topic. */
  predicate IsTopic(s: Suggestion)
  {
    MidKey in s && s[MidKey] != "" && TitleKey in s
  }

  /** The position of the first suggestion that names a topic, if any. */
  function FirstTopic(ss: seq<Suggestion>): (i: Option<nat>)
    ensures i.Some? ==> i.value < |ss| && IsTopic(ss[i.value]) && forall j :: 0 <= j < i.value ==> !IsTopic(ss[j])
    ensures i.None? ==> forall j :: 0 <= j < |ss| ==> !IsTopic(ss[j])
  {
    if ss == [] then None
    else if IsTopic(ss[0]) then Some(0)
    else
      match FirstTopic(ss[1..])
      case None => None
      case Some(j) => Some(j + 1)
  }

  /** The `(topic_id, title, error)` triple `map_keyword` returns. */
  datatype Mapping = Mapping(topicId: Option<string>, title: Option<string>, error: Option<string>)

  /**
   * `map_keyword` (lines 25-35): a failed lookup gives its message as the error; otherwise the
   * first suggestion naming a topic gives its id and title; with none the error is
   * "no_topic_match". A term gets an id exactly when it gets no error, and an id is never empty.
   */
  function MapKeyword(l: Lookup): (m: Mapping)
    ensures l.Failed? ==> m == Mapping(None, None, Some(l.msg))
    ensures l.Suggestions? ==> (m.topicId.Some? <==> exists j :: 0 <= j < |l.items| && IsTopic(l.items[j]))
    ensures l.Suggestions? && m.topicId.Some? ==> exists j :: (0 <= j < |l.items| && IsTopic(l.items[j])
      && (forall k :: 0 <= k < j ==> !IsTopic(l.items[k]))
      && m == Mapping(Some(l.items[j][MidKey]), Some(l.items[j][TitleKey]), None))
    ensures l.Suggestions? && m.topicId.None? ==> m == Mapping(None, None, Some(NoTopicMatch))
    ensures m.topicId.Some? <==> m.error.None?
    ensures m.topicId.Some? ==> m.topicId.value != "" && m.title.Some?
  {
    match l
    case Failed(msg) => Mapping(None, None, Some(msg))
    case Suggestions(items) =>
      match FirstTopic(items)
      case Some(j) => Mapping(Some(items[j][MidKey]), Some(items[j][TitleKey]), None)
      case None => Mapping(None, None, Some(NoTopicMatch))
  }

  /** The first topic wins: suggestions after it do not change the mapping. */
  lemma FirstTopicWins(before: seq<Suggestion>, s: Suggestion, after: seq<Suggestion>)
    requires forall k :: 0 <= k < |before| ==> !IsTopic(before[k])
    requires IsTopic(s)
    ensures MapKeyword(Suggestions(before + [s] + after)) == Mapping(Some(s[MidKey]), Some(s[TitleKey]), None)
  {
    var items := before + [s] + after;
    assert items[|before|] == s;
    assert forall k :: 0 <= k < |before| ==> items[k] == before[k];
  }

  // ---------------------------------------------------------------------------------------
  // The run

  /** A mapped term: `(term, topic_id, title)`. */
  datatype MappedTerm = MappedTerm(term: string, topicId: string, title: string)

  /** A rejected term: `(term, error)`. */
  datatype RejectedTerm = RejectedTerm(term: string, error: string)

  /** A row of the mapping log. */
  type Row = seq<string>

  const LogHeader: Row := ["raw_term", "topic_id", "topic_title", "error"]

  /** The error cell of a rejected term's log row: `error or "no match"`. */
  function ErrorCell(error: string): string
  {
    if error == "" then "no match" else error
  }

  /** The mapped terms of `main` (lines 45-48), in the order of `terms`. */
  function MappedOf(terms: seq<string>, suggest: string -> Lookup): seq<MappedTerm>
  {
    if terms == [] then []
    else
      var t := terms[|terms| - 1];
      var m := MapKeyword(suggest(t));
      MappedOf(terms[..|terms| - 1], suggest)
        + (if m.topicId.Some? then [MappedTerm(t, m.topicId.value, m.title.value)] else [])
  }

  /** The rejected terms of `main` (lines 50-51), in the order of `terms`. */
  function RejectedOf(terms: seq<string>, suggest: string -> Lookup): seq<RejectedTerm>
  {
    if terms == [] then []
    else
      var t := terms[|terms| - 1];
      var m := MapKeyword(suggest(t));
      RejectedOf(terms[..|terms| - 1], suggest)
        + (if m.topicId.Some? then [] else [RejectedTerm(t, m.error.value)])
  }

  /** The log rows after the header (lines 49 and 52): one per term, in the order of `terms`. */
  function LogRows(terms: seq<string>, suggest: string -> Lookup): (rows: seq<Row>)
    ensures |rows| == |terms|
  {
    if terms == [] then []
    else
      var t := terms[|terms| - 1];
      var m := MapKeyword(suggest(t));
      LogRows(terms[..|terms| - 1], suggest)
        + [if m.topicId.Some? then [t, m.topicId.value, m.title.value, ""] else [t, "", "", ErrorCell(m.error.value)]]
  }

  /**
   * A log row for term `t`: four cells starting with the term, the topic id filled exactly when the
   * term is mapped, and the error filled exactly when it is not.
   */
  predicate LogRowFor(row: Row, t: string, suggest: string -> Lookup)
  {
    |row| == 4 && row[0] == t
    && (row[1] != "" <==> MapKeyword(suggest(t)).topicId.Some?)
    && (row[3] != "" <==> MapKeyword(suggest(t)).topicId.None?)
  }

  /** Each log row is the row `LogRowFor` describes for the term in the same position. */
  lemma {:induction false} LogRowsCells(terms: seq<string>, suggest: string -> Lookup)
    ensures var rows := LogRows(terms, suggest);
      forall i :: 0 <= i < |rows| ==> LogRowFor(rows[i], terms[i], suggest)
  {
    if terms != [] {
      var front := terms[..|terms| - 1];
      LogRowsCells(front, suggest);
      var rows := LogRows(terms, suggest);
      forall i | 0 <= i < |rows| ensures LogRowFor(rows[i], terms[i], suggest) {
        if i < |front| {
          assert rows[i] == LogRows(front, suggest)[i];
          assert terms[i] == front[i];
        }
      }
    }
  }

  /** The term is mapped: its lookup yields a topic. */
  function IsMapped(suggest: string -> Lookup): string -> bool
  {
    t => MapKeyword(suggest(t)).topicId.Some?
  }

  /** The term is rejected: its lookup yields no topic. */
  function IsRejected(suggest: string -> Lookup): string -> bool
  {
    t => MapKeyword(suggest(t)).topicId.None?
  }

  /** The terms of some mapped terms. */
  function MappedTerms(ms: seq<MappedTerm>): (ts: seq<string>)
    ensures |ts| == |ms| && forall i :: 0 <= i < |ms| ==> ts[i] == ms[i].term
  {
    seq(|ms|, i requires 0 <= i < |ms| => ms[i].term)
  }

  /** The terms of some rejected terms. */
  function RejectedTerms(rs: seq<RejectedTerm>): (ts: seq<string>)
    ensures |ts| == |rs| && forall i :: 0 <= i < |rs| ==> ts[i] == rs[i].term
  {
    seq(|rs|, i requires 0 <= i < |rs| => rs[i].term)
  }

  lemma MappedTermsAppend(a: seq<MappedTerm>, b: seq<MappedTerm>)
    ensures MappedTerms(a + b) == MappedTerms(a) + MappedTerms(b)
  {
  }

  lemma RejectedTermsAppend(a: seq<RejectedTerm>, b: seq<RejectedTerm>)
    ensures RejectedTerms(a + b) == RejectedTerms(a) + RejectedTerms(b)
  {
  }

  /** A non-empty list is its front followed by its last element. */
  lemma Snoc(terms: seq<string>)
    requires terms != []
    ensures terms == terms[..|terms| - 1] + [terms[|terms| - 1]]
  {
  }

  /**
   * The mapped half of the partition of `main`: the mapped terms are the terms whose lookup yields
   * a topic, in the order of `terms`.
   */
  lemma {:induction false} MappedInOrder(terms: seq<string>, suggest: string -> Lookup)
    ensures MappedTerms(MappedOf(terms, suggest)) == Filter(terms, IsMapped(suggest))
  {
    if terms != [] {
      var n := |terms| - 1;
      var init := terms[..n];
      var t := terms[n];
      var m := MapKeyword(suggest(t));
      var extra := if m.topicId.Some? then [MappedTerm(t, m.topicId.value, m.title.value)] else [];
      MappedInOrder(init, suggest);
      Snoc(terms);
      FilterAppend(init, [t], IsMapped(suggest));
      MappedTermsAppend(MappedOf(init, suggest), extra);
      assert MappedTerms(extra) == Filter([t], IsMapped(suggest));
    }
  }

  /**
   * The rejected half: the rejected terms are the terms whose lookup yields no topic, in the
   * order of `terms`. With the mapped half, every term lands in exactly one of the two lists.
   */
  lemma {:induction false} RejectedInOrder(terms: seq<string>, suggest: string -> Lookup)
    ensures RejectedTerms(RejectedOf(terms, suggest)) == Filter(terms, IsRejected(suggest))
  {
    if terms != [] {
      var n := |terms| - 1;
      var init := terms[..n];
      var t := terms[n];
      var m := MapKeyword(suggest(t));
      var extra := if m.topicId.Some? then [] else [RejectedTerm(t, m.error.value)];
      RejectedInOrder(init, suggest);
      Snoc(terms);
      FilterAppend(init, [t], IsRejected(suggest));
      RejectedTermsAppend(RejectedOf(init, suggest), extra);
      assert RejectedTerms(extra) == Filter([t], IsRejected(suggest));
    }
  }

  /** Together the two lists hold as many entries as there are terms. */
  lemma {:induction false} PartitionSize(terms: seq<string>, suggest: string -> Lookup)
    ensures |MappedOf(terms, suggest)| + |RejectedOf(terms, suggest)| == |terms|
  {
    if terms != [] {
      PartitionSize(terms[..|terms| - 1], suggest);
    }
  }

  /** Each entry carries its own term's id and title, or its own term's error. */
  lemma {:induction false} PartitionEntries(terms: seq<string>, suggest: string -> Lookup)
    ensures forall x :: x in MappedOf(terms, suggest) ==> (x.term in terms &&
      MapKeyword(suggest(x.term)) == Mapping(Some(x.topicId), Some(x.title), None))
    ensures forall x :: x in RejectedOf(terms, suggest) ==> (x.term in terms &&
      MapKeyword(suggest(x.term)) == Mapping(None, None, Some(x.error)))
  {
    if terms != [] {
      var n := |terms| - 1;
      PartitionEntries(terms[..n], suggest);
      assert forall x :: x in terms[..n] ==> x in terms;
    }
  }

  /** A line of the master file: `f"{topic_id}\t{title}"`. */
  function MasterLine(m: MappedTerm): string
  {
    m.topicId + "\t" + m.title
  }

  /**
   * Writing the master file (lines 55-57): one line per mapped term, in order; and the rejected
   * list (lines 60-62): one `term<TAB>error` line per rejected term.
   */
  method WriteLists(mapped: seq<MappedTerm>, rejected: seq<RejectedTerm>) returns (master: seq<string>, rejectedLines: seq<string>)
    ensures |master| == |mapped| && forall i :: 0 <= i < |mapped| ==> master[i] == MasterLine(mapped[i])
    ensures |rejectedLines| == |rejected|
    ensures forall i :: 0 <= i < |rejected| ==> rejectedLines[i] == rejected[i].term + "\t" + rejected[i].error
  {
    master := [];
    for i := 0 to |mapped|
      invariant |master| == i && forall j :: 0 <= j < i ==> master[j] == MasterLine(mapped[j])
    {
      master := master + [mapped[i].topicId + "\t" + mapped[i].title];
    }
    rejectedLines := [];
    for i := 0 to |rejected|
      invariant |rejectedLines| == i
      invariant forall j :: 0 <= j < i ==> rejectedLines[j] == rejected[j].term + "\t" + rejected[j].error
    {
      rejectedLines := rejectedLines + [rejected[i].term + "\t" + rejected[i].error];
    }
  }

  /** A clean text neither starts nor ends with whitespace. */
  lemma CleanEnds(x: string)
    requires Clean(x)
    ensures !IsSpace(x[0]) && !IsSpace(x[|x| - 1])
  {
    StripShape(x);
  }

  /**
   * The weekly sync reads each master line as one keyword: with a clean id and title it is the
   * whole line, tab and title included.
   */
  lemma MasterLineRead(m: MappedTerm)
    requires Clean(m.topicId) && Clean(m.title)
    ensures Strip(MasterLine(m)) == MasterLine(m)
  {
    var id, title := m.topicId, m.title;
    CleanEnds(id);
    CleanEnds(title);
    var line := MasterLine(m);
    assert line[0] == id[0] && line[|line| - 1] == title[|title| - 1];
    StripFixes(line);
  }

  /** With an empty title the tab is stripped away: the keyword is the id alone. */
  lemma MasterLineNoTitle(m: MappedTerm)
    requires Clean(m.topicId) && m.title == ""
    ensures Strip(MasterLine(m)) == m.topicId
  {
    var id := m.topicId;
    var line := id + ['\t'];
    assert MasterLine(m) == line;
    CleanEnds(id);
    assert TrimLeft(line) == line by {
      assert line[0] == id[0];
    }
    assert TrimRight(line) == TrimRight(id) by {
      assert IsSpace(line[|line| - 1]) && line[..|line| - 1] == id;
    }
    assert TrimRight(id) == id by {
      StripFixes(id);
    }
  }

  /** How the mapper's loop runs. */
  method MapAll(terms: seq<string>, suggest: string -> Lookup) returns (mapped: seq<MappedTerm>, rejected: seq<RejectedTerm>, log: seq<Row>)
    ensures mapped == MappedOf(terms, suggest)
    ensures rejected == RejectedOf(terms, suggest)
    ensures log == [LogHeader] + LogRows(terms, suggest)
  {
    mapped, rejected := [], [];
    log := [LogHeader];
    for i := 0 to |terms|
      invariant mapped == MappedOf(terms[..i], suggest)
      invariant rejected == RejectedOf(terms[..i], suggest)
      invariant log == [LogHeader] + LogRows(terms[..i], suggest)
    {
      var term := terms[i];
      TakeTake(terms, i, i + 1);
      var m := MapKeyword(suggest(term));
      if m.topicId.Some? {
        mapped := mapped + [MappedTerm(term, m.topicId.value, m.title.value)];
        log := log + [[term, m.topicId.value, m.title.value, ""]];
      } else {
        rejected := rejected + [RejectedTerm(term, m.error.value)];
        log := log + [[term, "", "", ErrorCell(m.error.value)]];
      }
    }
    TakeAll(terms);
  }

  /**
   * `main` (lines 37-67) for the raw file's lines and the provider's answer to each term's lookup:
   * the terms are read, mapped one by one into the log, the master file and the rejected list.
   */
  method Run(lines: seq<string>, suggest: string -> Lookup)
    returns (terms: seq<string>, log: seq<Row>, master: seq<string>, rejectedLines: seq<string>)
    ensures Sorted(terms) && Distinct(terms)
    ensures forall x :: x in terms <==> exists l :: l in lines && !IsBlank(l) && Strip(l) == x
    ensures log == [LogHeader] + LogRows(terms, suggest)
    ensures var ms := MappedOf(terms, suggest);
      |master| == |ms| && forall i :: 0 <= i < |ms| ==> master[i] == MasterLine(ms[i])
    ensures var rs := RejectedOf(terms, suggest);
      |rejectedLines| == |rs| && forall i :: 0 <= i < |rs| ==> rejectedLines[i] == rs[i].term + "\t" + rs[i].error
  {
    terms := ReadRaw(lines);
    var mapped, rejected;
    mapped, rejected, log := MapAll(terms, suggest);
    master, rejectedLines := WriteLists(mapped, rejected);
  }
}
