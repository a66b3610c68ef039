/**
 * The SQL `VALUES` lists src/service/cli/fill.js writes: each row a template
 * literal with its texts between single quotes, interpolated as they are with
 * no escaping, and its numbers bare; the rows of a table joined by ",\n". A
 * reader for such lists states what the text carries.
 */
module SqlValues {
  import opened Wrappers
  import opened Text

  /**
   * One value of a row: `'${text}'`, or `${number}` written bare, as the
   * decimal text the template literal makes of the number.
   */
  datatype Field = Quoted(text: string) | Bare(text: string)

  function Rendered(f: Field): string
  {
    match f
    case Quoted(s) => "'" + s + "'"
    case Bare(s) => s
  }

  /** The values of a row separated by ", ", then the closing parenthesis. */
  function Listed(fields: seq<Field>): string
  {
    if fields == [] then ")"
    else if |fields| == 1 then Rendered(fields[0]) + ")"
    else Rendered(fields[0]) + (", " + Listed(fields[1..]))
  }

  /** The template literal of one row. */
  function Tuple(fields: seq<Field>): string
  {
    "(" + Listed(fields)
  }

  /** A bare value: not empty, not opening a quote, and holding no comma or closing parenthesis. */
  predicate Token(t: string)
  {
    t != [] && t[0] != '\'' && forall i :: 0 <= i < |t| ==> !IsStop(t[i])
  }

  /** A value the reader gets back: a quoted text without a single quote, or a token. */
  predicate PlainField(f: Field)
  {
    match f
    case Quoted(s) => '\'' !in s
    case Bare(s) => Token(s)
  }

  /** Every value of the row reads back: no quoted text holds a single quote, every bare value is a token. */
  predicate Plain(fields: seq<Field>)
  {
    forall k :: 0 <= k < |fields| ==> PlainField(fields[k])
  }

  /** No value of the row holds `c`. */
  predicate TextsAvoid(fields: seq<Field>, c: char)
  {
    forall k :: 0 <= k < |fields| ==> c !in fields[k].text
  }

  // ---------------------------------------------------------------------------
  // VALUES lists

  function Tuples(rows: seq<seq<Field>>): (tuples: seq<string>)
    ensures |tuples| == |rows| && forall k :: 0 <= k < |rows| ==> tuples[k] == Tuple(rows[k])
  {
    seq(|rows|, k requires 0 <= k < |rows| => Tuple(rows[k]))
  }

  /** `rows.map(...).join(",\n")`. */
  function ValuesText(rows: seq<seq<Field>>): string
  {
    Join(Tuples(rows), ",\n")
  }

  // ---------------------------------------------------------------------------
  // Reading the lists back

  /** The first position of `c` in `s`, or -1. */
  function Find(s: string, c: char): (k: int)
    ensures k == -1 <==> c !in s
    ensures k != -1 ==> 0 <= k < |s| && s[k] == c && forall i :: 0 <= i < k ==> s[i] != c
  {
    if s == [] then -1
    else if s[0] == c then 0
    else
      var k := Find(s[1..], c);
      if k == -1 then -1
      else
        assert forall i :: 1 <= i < k + 1 ==> s[i] == s[1..][i - 1];
        k + 1
  }

  predicate IsStop(ch: char) { ch == ',' || ch == ')' }

  /** The first position of a comma or a closing parenthesis, or -1. */
  function FindStop(s: string): (k: int)
    ensures k == -1 <==> forall i :: 0 <= i < |s| ==> !IsStop(s[i])
    ensures k != -1 ==> 0 <= k < |s| && IsStop(s[k]) && forall i :: 0 <= i < k ==> !IsStop(s[i])
  {
    if s == [] then -1
    else if IsStop(s[0]) then 0
    else
      var k := FindStop(s[1..]);
      if k == -1 then -1
      else
        assert forall i :: 1 <= i < k + 1 ==> s[i] == s[1..][i - 1];
        k + 1
  }

  /** Reads one value at the start of `s`: the value and how many characters it took. */
  function ReadField(s: string): (r: Option<(Field, nat)>)
    ensures r.Some? ==> 1 <= r.value.1 <= |s|
  {
    if s != [] && s[0] == '\'' then
      var k := Find(s[1..], '\'');
      if k == -1 then None else Some((Quoted(s[1..k + 1]), k + 2))
    else
      var k := FindStop(s);
      if k <= 0 then None else Some((Bare(s[..k]), k))
  }

  /** Reads values separated by ", " up to the closing parenthesis that ends `s`. */
  function ReadFields(s: string): Option<seq<Field>>
    decreases |s|
  {
    var r := ReadField(s);
    if r.None? then None
    else
      var f, k := r.value.0, r.value.1;
      if k == |s| - 1 && s[k] == ')' then Some([f])
      else if k + 2 <= |s| && s[k] == ',' && s[k + 1] == ' ' then
        var fs := ReadFields(s[k + 2..]);
        if fs.None? then None else Some([f] + fs.value)
      else None
  }

  /** Reads one row: `(`, its values, `)`. */
  function ReadTuple(s: string): Option<seq<Field>>
  {
    if s != [] && s[0] == '(' then ReadFields(s[1..]) else None
  }

  /** Reads the lines of a list: every line but the last ends with a comma. */
  function ReadLines(lines: seq<string>): Option<seq<seq<Field>>>
  {
    if lines == [] then Some([])
    else if |lines| == 1 then
      match ReadTuple(lines[0])
      case None => None
      case Some(fs) => Some([fs])
    else
      var line := lines[0];
      if line == [] || line[|line| - 1] != ',' then None
      else
        match (ReadTuple(line[..|line| - 1]), ReadLines(lines[1..]))
        case (Some(fs), Some(rest)) => Some([fs] + rest)
        case _ => None
  }

  /** Reads a whole `VALUES` list, line by line. */
  function ReadValues(text: string): Option<seq<seq<Field>>>
  {
    ReadLines(Split(text, '\n'))
  }

  /** A quoted text is read back up to its closing quote. */
  lemma ReadQuoted(text: string, tail: string)
    requires '\'' !in text
    ensures ReadField(Rendered(Quoted(text)) + tail) == Some((Quoted(text), |text| + 2))
  {
    QuoteSplit(text, tail);
    FindAfter(text, '\'', tail);
  }

  lemma QuoteSplit(text: string, tail: string)
    ensures var s := ("'" + text + "'") + tail;
      s != [] && s[0] == '\'' && s[1..] == text + ("'" + tail) && s[1..|text| + 1] == text
  {
    var s := ("'" + text + "'") + tail;
    assert s[1..] == text + ("'" + tail);
    assert s[1..|text| + 1] == text;
  }

  lemma FindAfter(prefix: string, c: char, tail: string)
    requires c !in prefix
    ensures Find(prefix + ([c] + tail), c) == |prefix|
  {
    var s := prefix + ([c] + tail);
    assert forall i :: 0 <= i < |prefix| ==> s[i] == prefix[i];
    assert s[|prefix|] == c;
  }

  /** A token is read back up to the comma or parenthesis after it. */
  lemma ReadBare(t: string, tail: string)
    requires Token(t)
    requires tail != [] && IsStop(tail[0])
    ensures ReadField(Rendered(Bare(t)) + tail) == Some((Bare(t), |t|))
  {
    var s := t + tail;
    assert forall i :: 0 <= i < |t| ==> s[i] == t[i];
    assert s[|t|] == tail[0];
    assert FindStop(s) == |t|;
    assert s[..|t|] == t;
  }

  /** Reading one value followed by `tail`. */
  lemma ReadOne(f: Field, tail: string)
    requires PlainField(f)
    requires tail != [] && IsStop(tail[0])
    ensures ReadField(Rendered(f) + tail) == Some((f, |Rendered(f)|))
  {
    match f
    case Quoted(text) => ReadQuoted(text, tail);
    case Bare(t) => ReadBare(t, tail);
  }

  /** The last value of a row: only the closing parenthesis follows it. */
  lemma ReadFieldsLast(s: string, f: Field, k: nat)
    requires ReadField(s) == Some((f, k)) && k == |s| - 1 && s[k] == ')'
    ensures ReadFields(s) == Some([f])
  {
  }

  /** A value, ", " and further values. */
  lemma ReadFieldsCons(s: string, f: Field, k: nat, fs: seq<Field>)
    requires ReadField(s) == Some((f, k)) && k + 2 <= |s| && s[k] == ',' && s[k + 1] == ' '
    requires ReadFields(s[k + 2..]) == Some(fs)
    ensures ReadFields(s) == Some([f] + fs)
  {
  }

  /** A value followed by anything else: the row does not read. */
  lemma ReadFieldsStuck(s: string, f: Field, k: nat)
    requires ReadField(s) == Some((f, k)) && k < |s| - 1 && s[k] != ','
    ensures ReadFields(s) == None
  {
  }

  lemma CommaSplit(head: string, rest: string)
    ensures |head + (", " + rest)| == |head| + 2 + |rest|
    ensures (head + (", " + rest))[|head|] == ',' && (head + (", " + rest))[|head| + 1] == ' '
    ensures (head + (", " + rest))[|head| + 2..] == rest
  {
    var s := head + (", " + rest);
    assert s[|head|] == ',' && s[|head| + 1] == ' ';
    assert s[|head| + 2..] == rest;
  }

  /** The values of a row without single quotes in its texts are read back from the list and its parenthesis. */
  lemma {:induction false} ReadFieldsListed(fields: seq<Field>)
    requires fields != [] && Plain(fields)
    ensures ReadFields(Listed(fields)) == Some(fields)
    decreases |fields|
  {
    if |fields| == 1 {
      ReadFieldsListedLast(fields);
    } else {
      PlainTail(fields);
      ReadFieldsListed(fields[1..]);
      ReadFieldsListedCons(fields);
    }
  }

  lemma ReadFieldsListedLast(fields: seq<Field>)
    requires |fields| == 1 && Plain(fields)
    ensures ReadFields(Listed(fields)) == Some(fields)
  {
    var f := fields[0];
    var head := Rendered(f);
    ReadOne(f, ")");
    assert (head + ")")[|head|] == ')';
    ReadFieldsLast(head + ")", f, |head|);
    assert fields == [f];
  }

  lemma ReadFieldsListedCons(fields: seq<Field>)
    requires |fields| > 1 && Plain(fields)
    requires ReadFields(Listed(fields[1..])) == Some(fields[1..])
    ensures ReadFields(Listed(fields)) == Some(fields)
  {
    var f, more := fields[0], fields[1..];
    assert PlainField(f);
    assert Listed(fields) == Rendered(f) + (", " + Listed(more));
    ReadFieldsAfterComma(f, Listed(more), more);
    assert fields == [f] + more;
  }

  /** A field, a comma and a space, then a text that reads as further fields. */
  lemma ReadFieldsAfterComma(f: Field, rest: string, fs: seq<Field>)
    requires PlainField(f) && ReadFields(rest) == Some(fs)
    ensures ReadFields(Rendered(f) + (", " + rest)) == Some([f] + fs)
  {
    var head := Rendered(f);
    ReadOne(f, ", " + rest);
    CommaSplit(head, rest);
    ReadFieldsCons(head + (", " + rest), f, |head|, fs);
  }

  lemma PlainTail(fields: seq<Field>)
    requires fields != [] && Plain(fields)
    ensures Plain(fields[1..])
  {
    var more := fields[1..];
    forall k | 0 <= k < |more| ensures PlainField(more[k]) {
      assert more[k] == fields[k + 1];
    }
  }

  /** A non-empty row whose texts hold no single quote reads back from its template literal. */
  lemma ReadTupleOfTuple(fields: seq<Field>)
    requires fields != [] && Plain(fields)
    ensures ReadTuple(Tuple(fields)) == Some(fields)
  {
    ReadFieldsListed(fields);
    assert Tuple(fields)[1..] == Listed(fields);
  }

  /** A single quote inside a text cuts the value short and the row no longer reads back. */
  lemma QuoteBreaksRow()
    ensures ReadTuple(Tuple([Quoted("it's")])) == None
  {
    var body := Rendered(Quoted("it")) + "s')";
    assert Tuple([Quoted("it's")])[1..] == body;
    ReadQuoted("it", "s')");
    assert |body| == 7 && body[4] == 's';
    ReadFieldsStuck(body, Quoted("it"), 4);
  }

  /** No line break inside a row whose texts have none. */
  lemma {:induction false} ListedAvoids(fields: seq<Field>, c: char)
    requires TextsAvoid(fields, c)
    requires c != '\'' && c != ',' && c != ' ' && c != ')'
    ensures c !in Listed(fields)
    decreases |fields|
  {
    if |fields| > 1 {
      var more := fields[1..];
      assert TextsAvoid(more, c) by {
        forall k | 0 <= k < |more| ensures c !in more[k].text {
          assert more[k] == fields[k + 1];
        }
      }
      ListedAvoids(more, c);
    }
  }

  /** The rows of a list no text of which holds a quote or a line break. */
  predicate Readable(rows: seq<seq<Field>>)
  {
    forall k :: 0 <= k < |rows| ==> rows[k] != [] && Plain(rows[k]) && TextsAvoid(rows[k], '\n')
  }

  /** A first line with its comma, then further lines. */
  lemma ReadLinesCons(lines: seq<string>, fs: seq<Field>, rest: seq<seq<Field>>)
    requires |lines| > 1 && lines[0] != [] && lines[0][|lines[0]| - 1] == ','
    requires ReadTuple(lines[0][..|lines[0]| - 1]) == Some(fs)
    requires ReadLines(lines[1..]) == Some(rest)
    ensures ReadLines(lines) == Some([fs] + rest)
  {
  }

  /** A line with its comma, then further lines. */
  lemma ReadLinesStep(line: string, others: seq<string>, fs: seq<Field>, rest: seq<seq<Field>>)
    requires others != [] && ReadTuple(line) == Some(fs) && ReadLines(others) == Some(rest)
    ensures ReadLines([line + ","] + others) == Some([fs] + rest)
  {
    var lines := [line + ","] + others;
    assert lines[0] == line + ",";
    assert lines[0][..|line|] == line;
    assert lines[1..] == others;
    ReadLinesCons(lines, fs, rest);
  }

  lemma ReadableTail(rows: seq<seq<Field>>)
    requires rows != [] && Readable(rows)
    ensures Readable(rows[1..])
  {
    var more := rows[1..];
    forall k | 0 <= k < |more| ensures more[k] != [] && Plain(more[k]) && TextsAvoid(more[k], '\n') {
      assert more[k] == rows[k + 1];
    }
  }

  /** The lines of a list after its first. */
  lemma TrailingCommasTail(rows: seq<seq<Field>>)
    requires |rows| > 1
    ensures WithTrailingCommas(Tuples(rows)) == [Tuple(rows[0]) + ","] + WithTrailingCommas(Tuples(rows[1..]))
  {
    assert Tuples(rows)[1..] == Tuples(rows[1..]);
  }

  lemma ReadableHead(rows: seq<seq<Field>>)
    requires rows != [] && Readable(rows)
    ensures rows[0] != [] && Plain(rows[0])
  {
  }

  /** A list of one row is one line, without a comma. */
  lemma ReadLinesSingle(rows: seq<seq<Field>>)
    requires |rows| == 1 && ReadTuple(Tuple(rows[0])) == Some(rows[0])
    ensures ReadLines(WithTrailingCommas(Tuples(rows))) == Some(rows)
  {
    assert WithTrailingCommas(Tuples(rows)) == [Tuple(rows[0])];
    assert rows == [rows[0]];
  }

  /** A list of several rows is its first row's line, with a comma, then the lines of the rest. */
  lemma ReadLinesMoreRows(rows: seq<seq<Field>>)
    requires |rows| > 1 && ReadTuple(Tuple(rows[0])) == Some(rows[0])
    requires ReadLines(WithTrailingCommas(Tuples(rows[1..]))) == Some(rows[1..])
    ensures ReadLines(WithTrailingCommas(Tuples(rows))) == Some(rows)
  {
    var more := rows[1..];
    TrailingCommasTail(rows);
    ReadLinesStep(Tuple(rows[0]), WithTrailingCommas(Tuples(more)), rows[0], more);
    assert rows == [rows[0]] + more;
  }

  /** Reading lines that are the tuples, all but the last with a comma after it. */
  lemma {:induction false} ReadLinesOfTuples(rows: seq<seq<Field>>)
    requires Readable(rows)
    ensures ReadLines(WithTrailingCommas(Tuples(rows))) == Some(rows)
    decreases |rows|
  {
    if rows != [] {
      ReadableHead(rows);
      ReadTupleOfTuple(rows[0]);
      if |rows| > 1 {
        var more := rows[1..];
        ReadableTail(rows);
        ReadLinesOfTuples(more);
        ReadLinesMoreRows(rows);
      } else {
        ReadLinesSingle(rows);
      }
    }
  }

  /**
   * A `VALUES` list is one row per line, each line but the last ending in a
   * comma, and it reads back as the rows it was made from, when no text holds
   * a single quote or a line break.
   */
  lemma ReadValuesOfValuesText(rows: seq<seq<Field>>)
    requires rows != [] && Readable(rows)
    ensures Split(ValuesText(rows), '\n') == WithTrailingCommas(Tuples(rows))
    ensures ReadValues(ValuesText(rows)) == Some(rows)
  {
    var tuples := Tuples(rows);
    JoinCommaNewline(tuples);
    LinesAvoidBreaks(rows);
    SplitJoin(WithTrailingCommas(tuples), '\n');
    ReadLinesOfTuples(rows);
  }

  lemma LinesAvoidBreaks(rows: seq<seq<Field>>)
    requires Readable(rows)
    ensures forall k :: 0 <= k < |rows| ==> '\n' !in WithTrailingCommas(Tuples(rows))[k]
  {
    var lines := WithTrailingCommas(Tuples(rows));
    forall k | 0 <= k < |rows| ensures '\n' !in lines[k] {
      ListedAvoids(rows[k], '\n');
      assert '\n' !in Tuple(rows[k]);
    }
  }
}
