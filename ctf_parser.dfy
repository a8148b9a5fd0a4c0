/** The CTF parser object: a line buffer, a cursor into it, and the dataset it
    fills.  Each recogniser advances the cursor the way the spec functions of
    CtfScan say; LoadSamples folds every line of a file into the dataset. */
module CtfParser {
  import opened CtfChars
  import opened CtfTypes
  import opened CtfNumbers
  import opened CtfScan
  import CtfScanFacts

  lemma FieldsSnoc(t: string, c: char)
    ensures c == ':' ==> ValueField(t + [c]) == "" && IndexField(t + [c]) == ValueField(t)
    ensures c != ':' ==> ValueField(t + [c]) == ValueField(t) + [c] && IndexField(t + [c]) == IndexField(t)
  {
    var u := t + [c];
    assert u[..|t|] == t;
    if c != ':' {
      assert LastColon(u) == LastColon(t);
      match LastColon(t)
      case None =>
      case Some(p) =>
        assert u[p + 1..] == t[p + 1..] + [c];
        assert u[..p] == t[..p];
    }
  }

  /** The value and index texts of a token as the scan builds them, left to right:
      a `:` moves the value text into the index text and starts an empty value text. */
  function SplitFields(t: string): (string, string)
  {
    if t == [] then ("", "")
    else
      var (v, i) := SplitFields(t[..|t| - 1]);
      if t[|t| - 1] == ':' then ("", v) else (v + [t[|t| - 1]], i)
  }

  /** Building the fields left to right gives the text after the last `:` and the text
      between the last two. */
  lemma {:induction false} SplitFieldsAgree(t: string)
    ensures SplitFields(t) == (ValueField(t), IndexField(t))
  {
    if t != [] {
      var u := t[..|t| - 1];
      SplitFieldsAgree(u);
      assert t == u + [t[|t| - 1]];
      FieldsSnoc(u, t[|t| - 1]);
    }
  }

  lemma {:induction false} CountPrefix(t: string, n: nat, cls: Class)
    requires n <= |t|
    ensures Count(t[..n], cls) <= Count(t, cls)
    decreases |t|
  {
    if n < |t| {
      CountPrefix(t[..|t| - 1], n, cls);
      assert t[..|t| - 1][..n] == t[..n];
    } else {
      assert t[..n] == t;
    }
  }

  lemma PrependTwice(a: seq<Value>, b: seq<Value>, r: Scan<seq<Value>>)
    ensures Prepend(a, Prepend(b, r)) == Prepend(a + b, r)
  {
    match r
    case Found(ws, e) => assert a + (b + ws) == (a + b) + ws;
    case NotFound(_) =>
    case Raised(_) =>
  }

  /** One more character of a token: the prefix read so far grows by it, and so do its
      fields and its counts of signs and points. */
  lemma TokenGrows(t: string, seen: string, m: nat)
    requires m < |t| && seen == t[..m]
    ensures t[..m + 1] == seen + [t[m]]
    ensures SplitFields(seen + [t[m]]) == if t[m] == ':' then ("", SplitFields(seen).0)
                                         else (SplitFields(seen).0 + [t[m]], SplitFields(seen).1)
    ensures Count(seen + [t[m]], Signs) == Count(seen, Signs) + (if IsSign(t[m]) then 1 else 0)
    ensures Count(seen + [t[m]], Points) == Count(seen, Points) + (if IsDecimalPoint(t[m]) then 1 else 0)
  {
    assert (seen + [t[m]])[..m] == seen;
    CountSnocs(seen, t[m]);
  }

  /** A second sign or decimal point among the first characters of a token is one in the token. */
  lemma TooManyMarks(token: string, n: nat)
    requires n <= |token|
    requires Count(token[..n], Signs) > 1 || Count(token[..n], Points) > 1
    ensures Count(token, Signs) > 1 || Count(token, Points) > 1
  {
    CountPrefix(token, n, Signs);
    CountPrefix(token, n, Points);
  }

  /** ValueSpec once the token `b[i..j]` is known to carry at most one sign and one point. */
  lemma ValueSpecUnfolds(b: string, i: nat, j: nat)
    requires i < j <= |b| && IsNumber(At(b, i)) && j == SkipWhile(b, i, ValueChars)
    requires Count(b[i..j], Signs) <= 1 && Count(b[i..j], Points) <= 1
    ensures var k := SkipWhile(b, j, Blanks);
            var c := At(b, k);
            ValueSpec(b, i) == if !IsNumber(c) && !IsCommentPrefix(c) && !IsEOL(c) then NotFound(i)
                               else match TokenValue(b[i..j]) case None => Raised(i) case Some(v) => Found(v, k)
  {
  }

  lemma PrependNothing(r: Scan<seq<Value>>)
    ensures Prepend([], r) == r
  {
    match r
    case Found(ws, e) => assert [] + ws == ws;
    case NotFound(_) =>
    case Raised(_) =>
  }

  /** The token loop of GetValue over the line `b` from `i`: reads number characters and
      `:`, splitting the text at each `:`, and gives up at a second sign or decimal point. */
  method ReadToken(b: string, i: nat) returns (ok: bool, valueStr: string, indexStr: string, isFloat: bool, end: nat)
    requires i <= |b|
    ensures i <= end <= |b|
    ensures ok ==> end == SkipWhile(b, i, ValueChars)
    ensures var token := b[i..SkipWhile(b, i, ValueChars)];
            ok <==> Count(token, Signs) <= 1 && Count(token, Points) <= 1
    ensures ok ==> (valueStr, indexStr) == SplitFields(b[i..end])
    ensures ok ==> isFloat == (Count(b[i..end], Points) == 1)
  {
    ghost var tokenEnd := SkipWhile(b, i, ValueChars);
    ghost var t := b[i..tokenEnd];
    ghost var seen: string := [];
    var idx := i;
    var c := At(b, idx);
    valueStr, indexStr := "", "";
    isFloat := false;
    var hasSignal := false;
    while IsNumber(c) || IsSparseValueDelimiter(c)
      invariant i <= idx <= tokenEnd && c == At(b, idx) && seen == t[..idx - i]
      invariant (valueStr, indexStr) == SplitFields(seen)
      invariant Count(seen, Signs) <= 1 && hasSignal == (Count(seen, Signs) == 1)
      invariant Count(seen, Points) <= 1 && isFloat == (Count(seen, Points) == 1)
      decreases tokenEnd - idx
    {
      assert idx < tokenEnd && t[idx - i] == c;
      TokenGrows(t, seen, idx - i);
      if IsSign(c) {
        if hasSignal {
          TooManyMarks(t, idx + 1 - i);
          return false, valueStr, indexStr, isFloat, idx;
        }
        hasSignal := true;
      }
      if IsDecimalPoint(c) {
        if isFloat {
          TooManyMarks(t, idx + 1 - i);
          return false, valueStr, indexStr, isFloat, idx;
        }
        isFloat := true;
      }
      if IsSparseValueDelimiter(c) {
        indexStr := valueStr;
        valueStr := "";
      } else {
        valueStr := valueStr + [c];
      }
      seen := seen + [c];
      idx := idx + 1;
      c := At(b, idx);
    }
    SkipWhileSpan(b, i, ValueChars);
    assert idx == tokenEnd && seen == b[i..idx];
    return true, valueStr, indexStr, isFloat, idx;
  }

  class Parser {
    /** The current line, without its NUL terminator. */
    var buf: string
    /** The parsing position in `buf`. */
    var pos: nat
    /** The sequences parsed so far, by id. */
    var sequences: Dataset
    /** Size of the whole file, which GetValues compares the cursor against. */
    const fileSize: nat

    ghost predicate Valid()
      reads this
    {
      LineOk(buf) && pos <= |buf|
    }

    constructor (fileSize: nat)
      ensures Valid()
      ensures buf == [] && pos == 0 && sequences == map[] && this.fileSize == fileSize
    {
      buf, pos, sequences := [], 0, map[];
      this.fileSize := fileSize;
    }

    /** Moves an index past the characters of a class: the spaces and tabs after a
        token, or the CR/LFs that end a line. */
    method Skip(from: nat, cls: Class) returns (idx: nat)
      requires from <= |buf|
      ensures idx == SkipWhile(buf, from, cls)
    {
      ghost var stop := SkipWhile(buf, from, cls);
      idx := from;
      var c := At(buf, idx);
      while In(cls, c)
        invariant from <= idx <= stop && c == At(buf, idx)
        decreases stop - idx
      {
        assert idx < stop;
        idx := idx + 1;
        c := At(buf, idx);
      }
      SkipWhileSpan(buf, from, cls);
    }

    /** An optional sequence id: with `|` under the cursor, the previous id; otherwise
        digits followed, after blanks, by `|`, which also become the previous id. */
    method GetSequenceId(previous: nat) returns (r: Scan<nat>, newPrevious: nat)
      requires Valid()
      modifies this`pos
      ensures Valid()
      ensures r == SequenceIdSpec(buf, old(pos), previous)
      ensures pos == r.Cursor()
      ensures newPrevious == if r.Found? then r.value else previous
    {
      var idx := pos;
      var c := At(buf, idx);
      if IsNamePrefix(c) {
        return Found(previous, pos), previous;
      }
      if !IsDigit(c) {
        return NotFound(pos), previous;
      }
      var idStr := "";
      ghost var digitsEnd := SkipWhile(buf, pos, Digits);
      while IsDigit(c)
        invariant pos <= idx <= digitsEnd && c == At(buf, idx)
        invariant idStr == buf[pos..idx]
        decreases digitsEnd - idx
      {
        assert idx < digitsEnd;
        assert buf[pos..idx + 1] == buf[pos..idx] + [c];
        idStr := idStr + [c];
        idx := idx + 1;
        c := At(buf, idx);
      }
      SkipWhileSpan(buf, pos, Digits);
      assert idx == digitsEnd;
      idx := Skip(idx, Blanks);
      c := At(buf, idx);
      if !IsNamePrefix(c) {
        return NotFound(pos), previous;
      }
      pos := idx;
      var id := Stoull(idStr);
      if id.None? {
        return Raised(idx), previous;
      }
      return Found(id.value, idx), id.value;
    }

    /** `|` and a name of letters and digits; the cursor moves onto the first value. */
    method GetName() returns (r: Scan<string>)
      requires Valid()
      modifies this`pos
      ensures Valid()
      ensures r == NameSpec(buf, old(pos))
      ensures pos == r.Cursor()
    {
      var idx := pos;
      var c := At(buf, idx);
      if !IsNamePrefix(c) {
        return NotFound(pos);
      }
      idx := idx + 1;
      c := At(buf, idx);
      var nameStr := "";
      ghost var nameEnd := SkipWhile(buf, pos + 1, NameChars);
      while IsDigit(c) || IsAlpha(c)
        invariant pos + 1 <= idx <= nameEnd && c == At(buf, idx)
        invariant nameStr == buf[pos + 1..idx]
        decreases nameEnd - idx
      {
        assert idx < nameEnd;
        assert buf[pos + 1..idx + 1] == buf[pos + 1..idx] + [c];
        nameStr := nameStr + [c];
        idx := idx + 1;
        c := At(buf, idx);
      }
      SkipWhileSpan(buf, pos + 1, NameChars);
      assert idx == nameEnd;
      idx := Skip(idx, Blanks);
      c := At(buf, idx);
      if !IsNumber(c) {
        return NotFound(pos);
      }
      pos := idx;
      return Found(nameStr, idx);
    }

    /** One dense value `v` or sparse value `i:v`. */
    method GetValue() returns (r: Scan<Value>)
      requires Valid()
      modifies this`pos
      ensures Valid()
      ensures r == ValueSpec(buf, old(pos))
      ensures pos == r.Cursor()
    {
      if !IsNumber(At(buf, pos)) {
        return NotFound(pos);
      }
      var ok, valueStr, indexStr, isFloat, idx := ReadToken(buf, pos);
      if !ok {
        return NotFound(pos);
      }
      ghost var tokenEnd := idx;
      SplitFieldsAgree(buf[pos..tokenEnd]);
      idx := Skip(idx, Blanks);
      var c := At(buf, idx);
      ValueSpecUnfolds(buf, pos, tokenEnd);
      if !IsNumber(c) && !IsCommentPrefix(c) && !IsEOL(c) {
        return NotFound(pos);
      }
      var v := ConvertValue(isFloat, valueStr, indexStr);
      if v.None? {
        return Raised(pos);
      }
      pos := idx;
      return Found(v.value, idx);
    }

    /** Values up to the next `|` or end of line, whose CR/LF are then consumed; they are
        appended to `values` only when every one of them was read. */
    method GetValues(values: seq<Value>) returns (r: Scan<seq<Value>>, values': seq<Value>)
      requires Valid()
      modifies this`pos
      ensures Valid()
      ensures r == ValuesSpec(buf, old(pos), fileSize)
      ensures pos == r.Cursor()
      ensures values' == if r.Found? then values + r.value else values
    {
      ghost var start := pos;
      var temp: seq<Value> := [];
      var c := At(buf, pos);
      PrependNothing(ValuesSpec(buf, pos, fileSize));
      while !IsNamePrefix(c) && !IsCommentPrefix(c) && !IsEOL(c) && pos != fileSize
        invariant Valid() && start <= pos && c == At(buf, pos)
        invariant ValuesSpec(buf, start, fileSize) == Prepend(temp, ValuesSpec(buf, pos, fileSize))
        decreases |buf| - pos
      {
        CtfScanFacts.ValuesStep(buf, pos, fileSize);
        var v := GetValue();
        if v.NotFound? {
          return NotFound(pos), values;
        } else if v.Raised? {
          return Raised(pos), values;
        }
        PrependTwice(temp, [v.value], ValuesSpec(buf, pos, fileSize));
        temp := temp + [v.value];
        c := At(buf, pos);
      }
      pos := Skip(pos, LineEnds);
      assert temp + [] == temp;
      return Found(temp, pos), values + temp;
    }

    /** A name followed by its values. */
    method GetSample() returns (r: Scan<Sample>)
      requires Valid()
      modifies this`pos
      ensures Valid()
      ensures r == SampleSpec(buf, old(pos), fileSize)
      ensures pos == r.Cursor()
    {
      ghost var start := pos;
      var name := GetName();
      if !name.Found? {
        return NotFound(pos);
      }
      var vr, values := GetValues([]);
      if vr.NotFound? {
        return NotFound(pos);
      } else if vr.Raised? {
        return Raised(pos);
      }
      assert values == vr.value;
      return Found(Sample(name.value, values), pos);
    }

    /** `|#` and the comment text, up to CR/LF or to a `|` outside quotes. */
    method GetComment() returns (r: Scan<string>)
      requires Valid()
      modifies this`pos
      ensures Valid()
      ensures r == CommentSpec(buf, old(pos))
      ensures pos == r.Cursor()
    {
      var quoteCount: nat := 0;
      var commentStr := "";
      var idx := pos;
      var c := At(buf, idx);
      if !IsCommentPrefix(c) {
        return NotFound(pos);
      }
      idx := idx + 1;
      c := At(buf, idx);
      if !IsCommentSuffix(c) {
        return NotFound(pos);
      }
      idx := idx + 1;
      c := At(buf, idx);
      // The end of the line stops the scan as well as CR/LF.
      while !IsEOL(c) && idx < |buf|
        invariant pos + 2 <= idx <= |buf| && c == At(buf, idx)
        invariant commentStr == buf[pos + 2..idx]
        invariant CommentEnd(buf, idx, quoteCount) == CommentEnd(buf, pos + 2, 0)
        decreases |buf| - idx
      {
        ghost var idx0, quotes0 := idx, quoteCount;
        assert buf[pos + 2..idx + 1] == buf[pos + 2..idx] + [c];
        commentStr := commentStr + [c];
        idx := idx + 1;
        c := At(buf, idx);
        if IsEscapeDelimiter(c) {
          quoteCount := quoteCount + 1;
        }
        if IsNamePrefix(c) && quoteCount % 2 == 0 {
          assert CommentEnd(buf, idx0, quotes0) == idx;
          break;
        }
      }
      ghost var commentEnd := idx;
      assert commentEnd == CommentEnd(buf, pos + 2, 0);
      idx := Skip(idx, LineEnds);
      pos := idx;
      return Found(commentStr, idx);
    }

    /** Creates the entry for `id` when it is missing, stamps it with `id`, appends a
        named sample and replaces the comment with a non-empty one. */
    method UpdateSequence(id: nat, sample: Sample, comment: string)
      modifies this`sequences
      ensures sequences == Record(old(sequences), id, sample, comment)
    {
      var s := if id in sequences then sequences[id] else EmptySequence(0);
      sequences := sequences[id := s.(sequenceId := id)];
      if sample.inputName != "" {
        sequences := sequences[id := sequences[id].(samples := sequences[id].samples + [sample])];
      }
      if comment != "" {
        sequences := sequences[id := sequences[id].(comment := comment)];
      }
    }

    /** Parses every line of a file into `sequences`.  The carried sequence id starts
        at 0; a position where neither a sequence id, a sample nor a comment parses
        clears all sequences and rejects; a conversion that throws stops the load
        with the sequences gathered so far. */
    method LoadSamples(lines: seq<string>) returns (status: Status)
      requires Valid()
      requires forall k :: 0 <= k < |lines| ==> LineOk(lines[k]) && |lines[k]| < BUFFER_SIZE
      modifies this
      ensures Valid()
      ensures Outcome(status, sequences) == LoadSpec(lines, 0, old(sequences), fileSize)
    {
      var previous: nat := 0;
      var n := 0;
      assert lines[0..] == lines;
      while n < |lines|
        invariant 0 <= n <= |lines| && Valid()
        invariant LoadSpec(lines, 0, old(sequences), fileSize) == LoadSpec(lines[n..], previous, sequences, fileSize)
      {
        buf := lines[n];
        pos := 0;
        assert lines[n..][1..] == lines[n + 1..];
        while pos < |buf|
          invariant Valid() && buf == lines[n]
          invariant LoadSpec(lines, 0, old(sequences), fileSize)
                    == AfterLine(lines[n + 1..], LineSpec(buf, pos, previous, sequences, fileSize), fileSize)
          decreases |buf| - pos
        {
          ghost var pos0, previous0, sequences0 := pos, previous, sequences;
          var comment := "";
          var sid, newPrevious := GetSequenceId(previous);
          if sid.Raised? {
            return Thrown;
          }
          if sid.NotFound? {
            CtfScanFacts.SequenceIdFailureIsFatal(buf, pos0, previous0);
            var cr := GetComment();
            if cr.Found? {
              assert false;
            }
            sequences := map[];
            return Rejected;
          }
          previous := newPrevious;
          var id := sid.value;
          var sample := Sample("", []);
          var sr := GetSample();
          if sr.Raised? {
            return Thrown;
          }
          if sr.NotFound? {
            var cr := GetComment();
            if !cr.Found? {
              sequences := map[];
              return Rejected;
            }
            comment := cr.value;
          } else {
            sample := sr.value;
          }
          ghost var after := pos;
          assert StepSpec(buf, pos0, previous0, sequences0, fileSize) == Next(after, id, Record(sequences0, id, sample, comment));
          UpdateSequence(id, sample, comment);
        }
        n := n + 1;
      }
      return Loaded;
    }
  }

  lemma CountSnocs(t: string, c: char)
    ensures Count(t + [c], Signs) == Count(t, Signs) + (if IsSign(c) then 1 else 0)
    ensures Count(t + [c], Points) == Count(t, Points) + (if IsDecimalPoint(c) then 1 else 0)
  {
    CtfScanFacts.CountSnoc(t, c, Signs);
    CtfScanFacts.CountSnoc(t, c, Points);
  }
}
