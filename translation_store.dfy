/** The `gamification_event_translations` table as the two translation edge
    functions see it: the columns they read and write, a read that may fail,
    and an insert that may fail. A failed insert leaves the table as it was;
    the ghost `attempts` records every insert request in the order it was
    sent and `outcomes` whether each one succeeded. */
module TranslationStore {
  import opened Common

  /** One translation row. The edge functions never read or write the row id,
      the status or a batch id, so the model has none of them. */
  datatype Translation = Translation(
    eventId: string,
    languageCode: string,
    title: string,
    description: string,
    message: string)

  /** The mock translation both functions use: the text followed by the
      bracketed target language code. */
  function TranslateText(text: string, target: string): string
  {
    text + " [" + target + "]"
  }

  /** One insert request per row, in row order. */
  function Singletons(rows: seq<Translation>): (r: seq<seq<Translation>>)
    ensures |r| == |rows|
  {
    seq(|rows|, i requires 0 <= i < |rows| => [rows[i]])
  }

  lemma SingletonsAppend(a: seq<Translation>, b: seq<Translation>)
    ensures Singletons(a + b) == Singletons(a) + Singletons(b)
  {
    assert forall i :: 0 <= i < |a + b| ==> Singletons(a + b)[i] == (Singletons(a) + Singletons(b))[i];
  }

  /** The rows of the requests that succeeded, in request order. */
  function Accepted(batches: seq<seq<Translation>>, oks: seq<bool>): seq<Translation>
    requires |batches| == |oks|
  {
    if batches == [] then []
    else Accepted(batches[..|batches| - 1], oks[..|oks| - 1]) + (if oks[|oks| - 1] then batches[|batches| - 1] else [])
  }

  lemma {:induction false} AcceptedAppend(b1: seq<seq<Translation>>, o1: seq<bool>, b2: seq<seq<Translation>>, o2: seq<bool>)
    requires |b1| == |o1| && |b2| == |o2|
    ensures Accepted(b1 + b2, o1 + o2) == Accepted(b1, o1) + Accepted(b2, o2)
    decreases |b2|
  {
    if b2 == [] {
      assert b1 + b2 == b1 && o1 + o2 == o1;
    } else {
      var bi, oi := b2[..|b2| - 1], o2[..|o2| - 1];
      AcceptedAppend(b1, o1, bi, oi);
      assert (b1 + b2)[..|b1 + b2| - 1] == b1 + bi;
      assert (o1 + o2)[..|o1 + o2| - 1] == o1 + oi;
    }
  }

  lemma AcceptedSingle(row: Translation, ok: bool)
    ensures Singletons([row]) == [[row]]
    ensures Accepted([[row]], [ok]) == if ok then [row] else []
  {
    assert [[row]][..0] == [];
  }

  /** From log a0, rows r0 and outcomes o0 to a, r and o, a table served one
      single-row insert request per row of `sent`, in order, the k-th with
      outcome oks[k]: exactly the rows whose request succeeded were added. */
  ghost predicate SentOneByOne(a0: seq<seq<Translation>>, r0: seq<Translation>, o0: seq<bool>,
                               a: seq<seq<Translation>>, r: seq<Translation>, o: seq<bool>,
                               sent: seq<Translation>, oks: seq<bool>)
  {
    |oks| == |sent| && o == o0 + oks && a == a0 + Singletons(sent) && r == r0 + Accepted(Singletons(sent), oks)
  }

  /** One single-row insert is such a run of length one. */
  lemma SentOne(a0: seq<seq<Translation>>, r0: seq<Translation>, o0: seq<bool>, row: Translation, ok: bool)
    ensures SentOneByOne(a0, r0, o0, a0 + [[row]], if ok then r0 + [row] else r0, o0 + [ok], [row], [ok])
  {
    AcceptedSingle(row, ok);
  }

  /** Two such runs one after the other form one run. */
  lemma SentOneByOneTrans(a0: seq<seq<Translation>>, r0: seq<Translation>, o0: seq<bool>,
                          a1: seq<seq<Translation>>, r1: seq<Translation>, o1: seq<bool>,
                          a2: seq<seq<Translation>>, r2: seq<Translation>, o2: seq<bool>,
                          s1: seq<Translation>, oks1: seq<bool>, s2: seq<Translation>, oks2: seq<bool>)
    requires SentOneByOne(a0, r0, o0, a1, r1, o1, s1, oks1)
    requires SentOneByOne(a1, r1, o1, a2, r2, o2, s2, oks2)
    ensures SentOneByOne(a0, r0, o0, a2, r2, o2, s1 + s2, oks1 + oks2)
  {
    SingletonsAppend(s1, s2);
    AppendAssoc(a0, Singletons(s1), Singletons(s2));
    AppendAssoc(o0, oks1, oks2);
    AcceptedAppend(Singletons(s1), oks1, Singletons(s2), oks2);
    AppendAssoc(r0, Accepted(Singletons(s1), oks1), Accepted(Singletons(s2), oks2));
  }

  lemma SentNothing(a: seq<seq<Translation>>, r: seq<Translation>, o: seq<bool>)
    ensures SentOneByOne(a, r, o, a, r, o, [], [])
  {
    assert a + Singletons([]) == a && r + [] == r && o + [] == o;
  }

  /** The (event, language) pairs of a list of rows, in order. */
  function Pairs(rows: seq<Translation>): (r: seq<(string, string)>)
    ensures |r| == |rows|
    ensures forall i :: 0 <= i < |rows| ==> r[i] == (rows[i].eventId, rows[i].languageCode)
  {
    seq(|rows|, i requires 0 <= i < |rows| => (rows[i].eventId, rows[i].languageCode))
  }

  class Table {
    var rows: seq<Translation>
    ghost var attempts: seq<seq<Translation>>
    ghost var outcomes: seq<bool>

    constructor (initial: seq<Translation>)
      ensures rows == initial && attempts == [] && outcomes == []
    {
      rows := initial;
      attempts := [];
      outcomes := [];
    }

    /** `select`: either the whole table or a transport error (None). */
    method Select() returns (r: Option<seq<Translation>>)
      ensures r.Some? ==> r.value == rows
    {
      var ok: bool :| true;
      r := if ok then Some(rows) else None;
    }

    /** `insert(batch)`: all rows of the batch are added, or none is. */
    method Insert(batch: seq<Translation>) returns (ok: bool)
      modifies this
      ensures attempts == old(attempts) + [batch] && outcomes == old(outcomes) + [ok]
      ensures rows == if ok then old(rows) + batch else old(rows)
    {
      ok :| true;
      attempts := attempts + [batch];
      outcomes := outcomes + [ok];
      if ok {
        rows := rows + batch;
      }
    }
  }
}
