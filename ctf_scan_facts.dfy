/** Properties of the CTF line recognisers and of LoadSamples, stated over the
    functions of CtfScan. */
module CtfScanFacts {
  import opened CtfChars
  import opened CtfTypes
  import opened CtfNumbers
  import opened CtfScan

  // ----- GetSequenceId -----

  /** The three behaviours of GetSequenceId: `|` gives the carried id in place; digits,
      blanks and `|` give the digits' value with the cursor on the `|`; anything else
      fails in place. */
  lemma SequenceIdCases(b: string, i: nat, previous: nat)
    requires i <= |b|
    ensures At(b, i) == '|' ==> SequenceIdSpec(b, i, previous) == Found(previous, i)
    ensures !IsDigit(At(b, i)) && At(b, i) != '|' ==> SequenceIdSpec(b, i, previous) == NotFound(i)
    ensures IsDigit(At(b, i)) ==>
      var j := SkipWhile(b, i, Digits);
      var k := SkipWhile(b, j, Blanks);
      && i < j && AllDigits(b[i..j])
      && (At(b, k) != '|' ==> SequenceIdSpec(b, i, previous) == NotFound(i))
      && (At(b, k) == '|' && NatOf(b[i..j]) <= SIZE_MAX ==>
            SequenceIdSpec(b, i, previous) == Found(NatOf(b[i..j]), k))
      && (At(b, k) == '|' && NatOf(b[i..j]) > SIZE_MAX ==>
            SequenceIdSpec(b, i, previous) == Raised(k))
  {
    if IsDigit(At(b, i)) {
      var j := SkipWhile(b, i, Digits);
      SkipWhileSpan(b, i, Digits);
      var d := b[i..j];
      assert |d| > 0 && AllDigits(d);
      DigitStringsConvert(d);
      if NatOf(d) > SIZE_MAX {
        DigitRunOfDigits(d, 0);
        assert d[0..|d|] == d;
      }
    }
  }

  /** A cursor where GetSequenceId fails is one where GetComment fails too: the
      comment branch after a failed sequence id can never be taken. */
  lemma SequenceIdFailureIsFatal(b: string, i: nat, previous: nat)
    requires i <= |b|
    requires SequenceIdSpec(b, i, previous).NotFound?
    ensures CommentSpec(b, i) == NotFound(i)
  {
  }

  // ----- GetName and GetSample -----

  /** A found name is `|`, then a maximal run of letters and digits, then blanks, and the
      cursor stops on a number start; otherwise the cursor does not move. */
  lemma NameShape(b: string, i: nat)
    requires i <= |b|
    ensures var r := NameSpec(b, i);
      && (r.Found? ==>
            && b[i] == '|'
            && r.value == b[i + 1..i + 1 + |r.value|]
            && (forall k :: 0 <= k < |r.value| ==> IsDigit(r.value[k]) || IsAlpha(r.value[k]))
            && !IsNameChar(At(b, i + 1 + |r.value|))
            && (forall k :: i + 1 + |r.value| <= k < r.next ==> IsValueDelimiter(b[k]))
            && IsNumber(b[r.next]))
      && (r.NotFound? ==> r.at == i)
    ensures i < |b| && b[i] == '|' ==>
      var j := SkipWhile(b, i + 1, NameChars);
      var k := SkipWhile(b, j, Blanks);
      IsNumber(At(b, k)) ==> NameSpec(b, i) == Found(b[i + 1..j], k)
  {
    if IsNamePrefix(At(b, i)) {
      var j := SkipWhile(b, i + 1, NameChars);
      SkipWhileSpan(b, i + 1, NameChars);
      SkipWhileSpan(b, j, Blanks);
    }
  }

  /** Where a value scan fails, the cursor is not on a `|`. */
  lemma {:induction false} ValuesFailNotOnBar(b: string, i: nat, fileSize: nat)
    requires i <= |b|
    requires ValuesSpec(b, i, fileSize).NotFound?
    ensures At(b, ValuesSpec(b, i, fileSize).at) != '|'
    decreases |b| - i
  {
    var c := At(b, i);
    if !(IsNamePrefix(c) || IsCommentPrefix(c) || IsEOL(c) || i == fileSize) {
      match ValueSpec(b, i)
      case NotFound(a) =>
      case Raised(a) =>
      case Found(v, k) => ValuesFailNotOnBar(b, k, fileSize);
    }
  }

  /** A sample whose name was read but whose values failed is never followed by a
      comment, so the name GetName wrote is never recorded. */
  lemma PartialSampleIsFatal(b: string, i: nat, fileSize: nat)
    requires i <= |b|
    requires NameSpec(b, i).Found?
    requires SampleSpec(b, i, fileSize).NotFound?
    ensures CommentSpec(b, SampleSpec(b, i, fileSize).at).NotFound?
  {
    var k := NameSpec(b, i).next;
    ValuesFailNotOnBar(b, k, fileSize);
  }

  /** One step of the values scan, away from its stopping characters. */
  lemma ValuesStep(b: string, i: nat, fileSize: nat)
    requires i <= |b|
    requires !IsNamePrefix(At(b, i)) && !IsCommentPrefix(At(b, i)) && !IsEOL(At(b, i)) && i != fileSize
    ensures ValueSpec(b, i).NotFound? ==> ValuesSpec(b, i, fileSize) == NotFound(i)
    ensures ValueSpec(b, i).Raised? ==> ValuesSpec(b, i, fileSize) == Raised(i)
    ensures ValueSpec(b, i).Found? ==>
              ValuesSpec(b, i, fileSize) == Prepend([ValueSpec(b, i).value], ValuesSpec(b, ValueSpec(b, i).next, fileSize))
  {
  }

  /** On a line no longer than the file, a found sample has at least one value: a name
      followed by nothing numeric is rejected by GetName. */
  lemma SampleHasValues(b: string, i: nat, fileSize: nat)
    requires i <= |b| <= fileSize
    requires SampleSpec(b, i, fileSize).Found?
    ensures |SampleSpec(b, i, fileSize).value.values| >= 1
  {
    var k := NameSpec(b, i).next;
    ValuesStep(b, k, fileSize);
  }

  // ----- GetValue -----

  lemma {:induction false} CountPositiveIffPresent(t: string, cls: Class)
    ensures Count(t, cls) > 0 <==> exists k :: 0 <= k < |t| && In(cls, t[k])
  {
    if t != [] {
      var u := t[..|t| - 1];
      CountPositiveIffPresent(u, cls);
      if exists k :: 0 <= k < |u| && In(cls, u[k]) {
        var k :| 0 <= k < |u| && In(cls, u[k]);
        assert In(cls, t[k]);
      }
      if exists k :: 0 <= k < |t| && In(cls, t[k]) {
        var k :| 0 <= k < |t| && In(cls, t[k]);
        if k < |u| { assert In(cls, u[k]); }
      }
    }
  }

  /** Token rules of GetValue, where the token is the maximal run of number characters
      and `:` at the cursor: a second sign or a second point anywhere in it (the index
      part included) fails; a value is a Double exactly when the token holds a point;
      a token without `:` gives the dense marker as index; and the cursor ends on a
      number start, a `|` or a CR/LF. */
  lemma ValueTokenRules(b: string, i: nat)
    requires i < |b| && IsNumber(b[i])
    ensures var j := SkipWhile(b, i, ValueChars);
      var token := b[i..j];
      var r := ValueSpec(b, i);
      && (Count(token, Signs) >= 2 || Count(token, Points) >= 2 ==> r == NotFound(i))
      && (r.Found? ==> (r.value.kind == Double <==> '.' in token))
      && (r.Found? ==> r.value.kind == Double || r.value.kind == Int16)
      && (r.Found? && ':' !in token ==> r.value.index == SIZE_MAX)
      && (r.Found? ==> IsNumber(b[r.next]) || b[r.next] == '|' || IsEOL(b[r.next]))
  {
    var j := SkipWhile(b, i, ValueChars);
    var token := b[i..j];
    CountPositiveIffPresent(token, Points);
    if ':' !in token {
      assert LastColon(token).None?;
    }
  }

  /** The converse of the token rules: a token with at most one sign and one point,
      followed after blanks by a number start, `|` or CR/LF, is accepted, and is then
      found or throws according to its conversions.  A found value is what std::stod
      (with a point) or std::stoll (without) reads from the value text, with the index
      that std::stoull reads from the index text. */
  lemma ValueTokenAccepted(b: string, i: nat)
    requires i < |b| && IsNumber(b[i])
    ensures var j := SkipWhile(b, i, ValueChars);
      var token := b[i..j];
      var k := SkipWhile(b, j, Blanks);
      var c := At(b, k);
      var r := ValueSpec(b, i);
      && (Count(token, Signs) <= 1 && Count(token, Points) <= 1 && (IsNumber(c) || c == '|' || IsEOL(c)) ==>
            (r.Found? <==> TokenValue(token).Some?) && (r.Raised? <==> TokenValue(token).None?))
      && (r.Found? ==> r.next == k)
      && (r.Found? && Count(token, Points) == 1 ==> Stod(ValueField(token)) == Some(r.value.value))
      && (r.Found? && Count(token, Points) != 1 ==>
            Stoll(ValueField(token)).Some? && r.value.value == Stoll(ValueField(token)).value as real)
      && (r.Found? && IndexField(token) != "" ==> Stoull(IndexField(token)) == Some(r.value.index))
  {
    var j := SkipWhile(b, i, ValueChars);
    var token := b[i..j];
    ConvertValueRules(Count(token, Points) == 1, ValueField(token), IndexField(token));
  }

  /** A value that runs up to the end of the line fails: the character after it is
      the NUL terminator, which is neither a number, `|`, nor CR/LF. */
  lemma ValueAtEndOfLineFails(b: string, i: nat)
    requires i <= |b|
    requires SkipWhile(b, i, ValueChars) == |b|
    ensures !ValueSpec(b, i).Found?
  {
  }

  // ----- GetComment -----

  /** A position where the comment text that starts at `s` stops: the end of the line,
      a CR/LF, or (after the first character) a `|` preceded by an even number of quotes. */
  predicate CommentStop(b: string, s: nat, e: nat)
    requires s <= e <= |b|
  {
    e == |b| || IsEOL(b[e]) || (s < e && b[e] == '|' && Count(b[s + 1..e], Quotes) % 2 == 0)
  }

  lemma CountSnoc(t: string, c: char, cls: Class)
    ensures Count(t + [c], cls) == Count(t, cls) + (if In(cls, c) then 1 else 0)
  {
    assert (t + [c])[..|t|] == t;
  }

  /** Counting the quotes of a comment one more character further. */
  lemma QuotesStep(b: string, s: nat, n: nat)
    requires s + 1 <= n < |b|
    ensures Count(b[s + 1..n + 1], Quotes) == Count(b[s + 1..n], Quotes) + (if IsEscapeDelimiter(b[n]) then 1 else 0)
  {
    assert b[s + 1..n + 1] == b[s + 1..n] + [b[n]];
    CountSnoc(b[s + 1..n], b[n], Quotes);
  }

  /** The scan from `j`, having counted the quotes up to `j`, stops at a stop position. */
  lemma {:induction false} CommentEndStops(b: string, s: nat, j: nat, q: nat)
    requires s <= j <= |b|
    requires j < |b| ==> q == Count(b[s + 1..j + 1], Quotes)
    ensures CommentStop(b, s, CommentEnd(b, j, q))
    decreases |b| - j
  {
    if j < |b| && !IsEOL(b[j]) {
      var c := At(b, j + 1);
      var q' := if IsEscapeDelimiter(c) then q + 1 else q;
      if j + 1 < |b| {
        QuotesStep(b, s, j + 1);
      }
      if !(IsNamePrefix(c) && q' % 2 == 0) {
        CommentEndStops(b, s, j + 1, q');
      }
    }
  }

  /** ... and at none before it. */
  lemma {:induction false} CommentEndFirst(b: string, s: nat, j: nat, q: nat)
    requires s <= j <= |b|
    requires j < |b| ==> q == Count(b[s + 1..j + 1], Quotes)
    requires s < j < |b| ==> !(b[j] == '|' && q % 2 == 0)
    ensures forall m :: j <= m < CommentEnd(b, j, q) ==> !CommentStop(b, s, m)
    decreases |b| - j
  {
    if j < |b| && !IsEOL(b[j]) {
      if s < j && b[j] == '|' {
        QuotesStep(b, s, j);
      }
      assert !CommentStop(b, s, j);
      var c := At(b, j + 1);
      var q' := if IsEscapeDelimiter(c) then q + 1 else q;
      if !(IsNamePrefix(c) && q' % 2 == 0) {
        if j + 1 < |b| {
          QuotesStep(b, s, j + 1);
        }
        CommentEndFirst(b, s, j + 1, q');
      }
    }
  }

  /** The comment text that starts at `s` ends at the first stop position; the
      character at `s` itself is never a stop unless it is CR/LF or the end. */
  lemma CommentEndIsFirstStop(b: string, s: nat)
    requires s <= |b|
    ensures var e := CommentEnd(b, s, 0);
      && s <= e <= |b|
      && CommentStop(b, s, e)
      && forall m :: s <= m < e ==> !CommentStop(b, s, m)
  {
    CommentEndStops(b, s, s, 0);
    CommentEndFirst(b, s, s, 0);
  }

  /** GetComment copies everything after `|#` up to its first stop: a CR/LF, the end of
      the line, or a `|` outside quotes, which is excluded and where the cursor stays
      (CommentEndIsFirstStop says that CommentEnd is that first stop).
      The first character after `#` is always copied, even a `|` or a quote. */
  lemma CommentRules(b: string, i: nat)
    requires i + 2 <= |b| && b[i] == '|' && b[i + 1] == '#'
    ensures var r := CommentSpec(b, i);
      && r.Found?
      && var e := i + 2 + |r.value|;
      && e == CommentEnd(b, i + 2, 0)
      && r.value == b[i + 2..e]
      && (i + 2 < |b| && !IsEOL(b[i + 2]) ==> |r.value| >= 1 && r.value[0] == b[i + 2])
      && (e < |b| && b[e] == '|' ==> r.next == e)
      && (forall k :: e <= k < r.next ==> IsEOL(b[k]))
      && (r.next < |b| ==> !IsEOL(b[r.next]))
  {
    CommentEndIsFirstStop(b, i + 2);
    SkipWhileSpan(b, CommentEnd(b, i + 2, 0), LineEnds);
  }

  // ----- LoadSamples -----

  /** The accumulation rules of one recorded segment: the entry for the id exists and
      carries the id, a sample with a name is appended last, an unnamed one is dropped,
      only a non-empty comment replaces the previous one, and no other id changes. */
  lemma RecordRules(ds: Dataset, id: nat, sample: Sample, comment: string)
    ensures var r := Record(ds, id, sample, comment);
      && r.Keys == ds.Keys + {id}
      && r[id].sequenceId == id
      && (forall k :: k in ds && k != id ==> r[k] == ds[k])
      && (sample.inputName != "" ==> r[id].samples == Prior(ds, id).samples + [sample])
      && (sample.inputName == "" ==> r[id].samples == Prior(ds, id).samples)
      && (comment != "" ==> r[id].comment == comment)
      && (comment == "" ==> r[id].comment == Prior(ds, id).comment)
  {
  }

  /** The dataset only grows: every id stays, its samples are only appended to, and a
      comment once set is never emptied (unless the whole load is rejected). */
  ghost predicate Extends(ds: Dataset, d: Dataset)
  {
    forall id :: id in ds ==>
      && id in d
      && ds[id].samples <= d[id].samples
      && (ds[id].comment != "" ==> d[id].comment != "")
  }

  lemma ExtendsTransitive(d1: Dataset, d2: Dataset, d3: Dataset)
    requires Extends(d1, d2) && Extends(d2, d3)
    ensures Extends(d1, d3)
  {
    forall id | id in d1
      ensures id in d3 && d1[id].samples <= d3[id].samples
      ensures d1[id].comment != "" ==> d3[id].comment != ""
    {
      assert id in d2 && d1[id].samples <= d2[id].samples;
    }
  }

  lemma RecordExtends(ds: Dataset, id: nat, sample: Sample, comment: string)
    ensures Extends(ds, Record(ds, id, sample, comment))
  {
  }

  lemma StepExtends(b: string, pos: nat, previous: nat, ds: Dataset, fileSize: nat)
    requires pos < |b|
    ensures var r := StepSpec(b, pos, previous, ds, fileSize);
      !(r.Stop? && r.status == Rejected) ==> Extends(ds, r.dataset)
  {
    var r := StepSpec(b, pos, previous, ds, fileSize);
    match SequenceIdSpec(b, pos, previous)
    case Raised(_) =>
    case NotFound(_) =>
    case Found(id, p1) =>
      match SampleSpec(b, p1, fileSize)
      case Raised(_) =>
      case Found(sample, p2) => RecordExtends(ds, id, sample, "");
      case NotFound(a) =>
        match CommentSpec(b, a)
        case Found(comment, p3) => RecordExtends(ds, id, Sample("", []), comment);
        case _ =>
  }

  lemma {:induction false} LineExtends(b: string, pos: nat, previous: nat, ds: Dataset, fileSize: nat)
    requires pos <= |b|
    ensures var r := LineSpec(b, pos, previous, ds, fileSize);
      !(r.Stop? && r.status == Rejected) ==> Extends(ds, r.dataset)
    decreases |b| - pos
  {
    if pos < |b| {
      StepExtends(b, pos, previous, ds, fileSize);
      match StepSpec(b, pos, previous, ds, fileSize)
      case Stop(st, d) =>
      case Next(p, prev, d) =>
        LineExtends(b, p, prev, d, fileSize);
        var r := LineSpec(b, p, prev, d, fileSize);
        if !(r.Stop? && r.status == Rejected) {
          ExtendsTransitive(ds, d, r.dataset);
        }
    } else {
      assert Extends(ds, ds);
    }
  }

  /** Without a rejection, the dataset only grows: ids stay, samples are only
      appended, and a comment once set is never emptied. */
  lemma {:induction false} LoadExtends(lines: seq<string>, previous: nat, ds: Dataset, fileSize: nat)
    ensures LoadSpec(lines, previous, ds, fileSize).status != Rejected ==>
      Extends(ds, LoadSpec(lines, previous, ds, fileSize).dataset)
    decreases |lines|
  {
    if lines == [] {
      assert Extends(ds, ds);
    } else {
      var r := LineSpec(lines[0], 0, previous, ds, fileSize);
      LineExtends(lines[0], 0, previous, ds, fileSize);
      assert LoadSpec(lines, previous, ds, fileSize) == AfterLine(lines[1..], r, fileSize);
      if r.Next? {
        var o := LoadSpec(lines[1..], r.previous, r.dataset, fileSize);
        LoadExtends(lines[1..], r.previous, r.dataset, fileSize);
        if o.status != Rejected {
          ExtendsTransitive(ds, r.dataset, o.dataset);
        }
      }
    }
  }

  /** A line that starts with neither `|` nor a digit (a blank line, a lone CR or LF, a
      leading space) rejects the whole load. */
  lemma BadLineStartRejects(b: string, previous: nat, ds: Dataset, fileSize: nat)
    requires |b| > 0 && b[0] != '|' && !IsDigit(b[0])
    ensures LineSpec(b, 0, previous, ds, fileSize) == Stop(Rejected, map[])
  {
  }

  // ----- Carrying the sequence id -----

  /** On a line as the reader delivers it, GetValues leaves the cursor on a `|` or at
      the end of the line. */
  lemma {:induction false} ValuesEndOnBar(b: string, i: nat, fileSize: nat)
    requires ReaderLine(b) && |b| <= fileSize && i <= |b|
    requires ValuesSpec(b, i, fileSize).Found?
    ensures var e := ValuesSpec(b, i, fileSize).next; e == |b| || b[e] == '|'
    decreases |b| - i
  {
    var c := At(b, i);
    if IsNamePrefix(c) || IsCommentPrefix(c) || IsEOL(c) || i == fileSize {
      if IsEOL(c) {
        assert i == |b| - 1;
      }
    } else {
      match ValueSpec(b, i)
      case Found(v, k) => ValuesEndOnBar(b, k, fileSize);
    }
  }

  /** On a line as the reader delivers it, GetComment leaves the cursor on a `|` or at
      the end of the line. */
  lemma CommentEndsOnBar(b: string, i: nat)
    requires ReaderLine(b) && i <= |b|
    requires CommentSpec(b, i).Found?
    ensures var n := CommentSpec(b, i).next; n == |b| || b[n] == '|'
  {
    var e := CommentEnd(b, i + 2, 0);
    CommentEndIsFirstStop(b, i + 2);
    if e < |b| && IsEOL(b[e]) {
      assert e == |b| - 1;
    }
  }

  /** Segments after the first one on a line start at `|` or at the end. */
  lemma StepEndsOnBar(b: string, pos: nat, previous: nat, ds: Dataset, fileSize: nat)
    requires ReaderLine(b) && |b| <= fileSize && pos < |b|
    ensures var r := StepSpec(b, pos, previous, ds, fileSize);
      r.Next? ==> r.pos == |b| || b[r.pos] == '|'
  {
    match SequenceIdSpec(b, pos, previous)
    case Raised(_) =>
    case NotFound(_) =>
    case Found(id, p1) =>
      match SampleSpec(b, p1, fileSize)
      case Raised(_) =>
      case Found(sample, p2) =>
        ValuesEndOnBar(b, NameSpec(b, p1).next, fileSize);
      case NotFound(a) =>
        match CommentSpec(b, a)
        case Found(comment, p3) => CommentEndsOnBar(b, a);
        case _ =>
  }

  /** A line that does not start with a digit adds to no sequence but the carried one,
      and leaves the carried id as it was. */
  lemma {:induction false} LineCarriesId(b: string, pos: nat, previous: nat, ds: Dataset, fileSize: nat)
    requires ReaderLine(b) && |b| <= fileSize && pos <= |b|
    requires !IsDigit(At(b, pos))
    ensures var r := LineSpec(b, pos, previous, ds, fileSize);
      && r.dataset.Keys <= ds.Keys + {previous}
      && (r.Next? ==> r.previous == previous)
    decreases |b| - pos
  {
    if pos < |b| {
      StepEndsOnBar(b, pos, previous, ds, fileSize);
      match StepSpec(b, pos, previous, ds, fileSize)
      case Stop(st, d) =>
      case Next(p, prev, d) =>
        assert prev == previous && d.Keys <= ds.Keys + {previous};
        LineCarriesId(b, p, prev, d, fileSize);
    }
  }

  /** Lines without an explicit sequence id all fold into the carried id: a file none of
      whose lines starts with a digit yields at most the one sequence the load started
      with as carried id (0 for a fresh load). */
  lemma {:induction false} ImplicitIdsFoldIntoCarriedId(lines: seq<string>, previous: nat, ds: Dataset, fileSize: nat)
    requires forall k :: 0 <= k < |lines| ==> ReaderLine(lines[k]) && |lines[k]| <= fileSize
    requires forall k :: 0 <= k < |lines| ==> !IsDigit(At(lines[k], 0))
    ensures LoadSpec(lines, previous, ds, fileSize).dataset.Keys <= ds.Keys + {previous}
    decreases |lines|
  {
    if lines != [] {
      var r := LineSpec(lines[0], 0, previous, ds, fileSize);
      LineCarriesId(lines[0], 0, previous, ds, fileSize);
      assert LoadSpec(lines, previous, ds, fileSize) == AfterLine(lines[1..], r, fileSize);
      if r.Next? {
        ImplicitIdsFoldIntoCarriedId(lines[1..], r.previous, r.dataset, fileSize);
      }
    }
  }

  /** A fresh load of lines without explicit ids puts everything under id 0. */
  lemma FreshImplicitLoadUsesIdZero(lines: seq<string>, fileSize: nat)
    requires forall k :: 0 <= k < |lines| ==> ReaderLine(lines[k]) && |lines[k]| <= fileSize
    requires forall k :: 0 <= k < |lines| ==> !IsDigit(At(lines[k], 0))
    ensures Load(lines, fileSize).dataset.Keys <= {0}
  {
    ImplicitIdsFoldIntoCarriedId(lines, 0, map[], fileSize);
  }

  /** The explicit sequence id of a line that starts with a digit: its leading digits. */
  function LineId(b: string): nat
  {
    SkipWhileSpan(b, 0, Digits);
    NatOf(b[..SkipWhile(b, 0, Digits)])
  }

  /** The ids written at the start of the lines that start with a digit. */
  function ExplicitIds(lines: seq<string>): set<nat>
    decreases |lines|
  {
    if lines == [] then {}
    else
      var first := if 0 < |lines[0]| && IsDigit(lines[0][0]) then {LineId(lines[0])} else {};
      first + ExplicitIds(lines[1..])
  }

  /** A line that starts with an explicit id adds to no sequence but that one, records
      it when the line is scanned to its end, and makes it the carried id for the
      lines that follow. */
  lemma ExplicitLineUsesItsId(b: string, previous: nat, ds: Dataset, fileSize: nat)
    requires ReaderLine(b) && |b| <= fileSize && 0 < |b| && IsDigit(b[0])
    ensures var r := LineSpec(b, 0, previous, ds, fileSize);
      && r.dataset.Keys <= ds.Keys + {LineId(b)}
      && (r.Next? ==> r.previous == LineId(b) && r.dataset.Keys == ds.Keys + {LineId(b)})
  {
    SequenceIdCases(b, 0, previous);
    assert b[0..SkipWhile(b, 0, Digits)] == b[..SkipWhile(b, 0, Digits)];
    StepEndsOnBar(b, 0, previous, ds, fileSize);
    match StepSpec(b, 0, previous, ds, fileSize)
    case Stop(st, d) =>
    case Next(p, id, d) =>
      assert id == LineId(b) && d.Keys == ds.Keys + {id};
      LineCarriesId(b, p, id, d, fileSize);
      LineExtends(b, p, id, d, fileSize);
  }

  /** A load only creates the sequences whose ids start its lines, plus the carried id
      when the first line has none; a load that succeeds creates each of the former. */
  lemma {:induction false} LoadKeys(lines: seq<string>, previous: nat, ds: Dataset, fileSize: nat)
    requires forall k :: 0 <= k < |lines| ==> ReaderLine(lines[k]) && |lines[k]| <= fileSize
    ensures var o := LoadSpec(lines, previous, ds, fileSize);
      && o.dataset.Keys <= ds.Keys + ExplicitIds(lines) +
           (if 0 < |lines| && !IsDigit(At(lines[0], 0)) then {previous} else {})
      && (o.status == Loaded ==> ds.Keys + ExplicitIds(lines) <= o.dataset.Keys)
    decreases |lines|
  {
    if lines != [] {
      var b := lines[0];
      var r := LineSpec(b, 0, previous, ds, fileSize);
      assert LoadSpec(lines, previous, ds, fileSize) == AfterLine(lines[1..], r, fileSize);
      if 0 < |b| && IsDigit(b[0]) {
        ExplicitLineUsesItsId(b, previous, ds, fileSize);
      } else {
        LineCarriesId(b, 0, previous, ds, fileSize);
        LineExtends(b, 0, previous, ds, fileSize);
      }
      if r.Next? {
        LoadKeys(lines[1..], r.previous, r.dataset, fileSize);
        if 1 < |lines| && !IsDigit(At(lines[1], 0)) {
          if 0 < |b| && IsDigit(b[0]) {
            assert r.previous == LineId(b);
          } else {
            LineCarriesId(b, 0, previous, ds, fileSize);
            assert r.previous == previous;
          }
        }
      }
    }
  }

  /** A file whose every line starts with an explicit id loads exactly the sequences
      with those ids. */
  lemma ExplicitLoadHasWrittenIds(lines: seq<string>, fileSize: nat)
    requires forall k :: 0 <= k < |lines| ==> ReaderLine(lines[k]) && |lines[k]| <= fileSize
    requires forall k :: 0 <= k < |lines| ==> 0 < |lines[k]| && IsDigit(lines[k][0])
    ensures Load(lines, fileSize).status == Loaded ==>
      Load(lines, fileSize).dataset.Keys == ExplicitIds(lines)
  {
    LoadKeys(lines, 0, map[], fileSize);
  }

  /** Lines without an id after a line with one fold into the sequence of that id. */
  lemma ImplicitLinesFoldIntoExplicitId(lines: seq<string>, fileSize: nat)
    requires forall k :: 0 <= k < |lines| ==> ReaderLine(lines[k]) && |lines[k]| <= fileSize
    requires 0 < |lines| && 0 < |lines[0]| && IsDigit(lines[0][0])
    requires forall k :: 0 < k < |lines| ==> !IsDigit(At(lines[k], 0))
    ensures Load(lines, fileSize).dataset.Keys <= {LineId(lines[0])}
  {
    var r := LineSpec(lines[0], 0, 0, map[], fileSize);
    ExplicitLineUsesItsId(lines[0], 0, map[], fileSize);
    assert Load(lines, fileSize) == AfterLine(lines[1..], r, fileSize);
    if r.Next? {
      ImplicitIdsFoldIntoCarriedId(lines[1..], r.previous, r.dataset, fileSize);
    }
  }
}
