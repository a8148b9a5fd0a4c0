/** What each step of the CTF line parser computes, as functions of the line
    buffer and a cursor.  The buffer is one line as the reader delivers it,
    without its terminating NUL; reading at or past its end yields NUL. */
module CtfScan {
  import opened CtfChars
  import opened CtfTypes
  import opened CtfNumbers

  /** The character under the cursor: NUL at and past the end of the line. */
  function At(b: string, i: nat): char
  {
    if i < |b| then b[i] else '\0'
  }

  /** A line as the reader stores it: no NUL inside, so the NUL terminator ends it. */
  predicate LineOk(b: string) { forall k :: 0 <= k < |b| ==> b[k] != '\0' }

  /** A line as the reader splits a file: it fits the buffer, holds no NUL, and
      a CR or LF can only be its last character. */
  predicate ReaderLine(b: string)
  {
    && LineOk(b)
    && |b| < BUFFER_SIZE
    && forall k :: 0 <= k < |b| - 1 ==> !IsEOL(b[k])
  }

  predicate IsNameChar(c: char) { IsDigit(c) || IsAlpha(c) }

  predicate IsValueChar(c: char) { IsNumber(c) || IsSparseValueDelimiter(c) }

  /** The character classes the recognisers skip over or count. */
  datatype Class = Digits | NameChars | ValueChars | Blanks | LineEnds | Signs | Points | Quotes

  predicate In(cls: Class, c: char)
  {
    match cls
    case Digits => IsDigit(c)
    case NameChars => IsNameChar(c)
    case ValueChars => IsValueChar(c)
    case Blanks => IsValueDelimiter(c)
    case LineEnds => IsEOL(c)
    case Signs => IsSign(c)
    case Points => IsDecimalPoint(c)
    case Quotes => IsEscapeDelimiter(c)
  }

  /** Outcome of one recogniser: what it found and where the cursor is left, that it
      did not match (the cursor is left at `at`), or that a conversion threw. */
  datatype Scan<T> = Found(value: T, next: nat) | NotFound(at: nat) | Raised(at: nat)
  {
    function Cursor(): nat
    {
      match this
      case Found(_, n) => n
      case NotFound(a) => a
      case Raised(a) => a
    }
  }

  /** First position at or after `i` whose character is not in class `p`. */
  function SkipWhile(b: string, i: nat, cls: Class): (j: nat)
    requires i <= |b|
    ensures i <= j <= |b|
    ensures j == |b| || !In(cls, b[j])
    decreases |b| - i
  {
    if i < |b| && In(cls, b[i]) then SkipWhile(b, i + 1, cls) else i
  }

  /** Every character SkipWhile passes over is in the class. */
  lemma {:induction false} SkipWhileSpan(b: string, i: nat, cls: Class)
    requires i <= |b|
    ensures forall k :: i <= k < SkipWhile(b, i, cls) ==> In(cls, b[k])
    decreases |b| - i
  {
    if i < |b| && In(cls, b[i]) {
      SkipWhileSpan(b, i + 1, cls);
    }
  }

  /** Number of characters of `t` in class `p`. */
  function Count(t: string, cls: Class): (n: nat)
    ensures n <= |t|
  {
    if t == [] then 0 else Count(t[..|t| - 1], cls) + (if In(cls, t[|t| - 1]) then 1 else 0)
  }

  /** Position of the last `:` of a token, if any. */
  function LastColon(t: string): (r: Option<nat>)
    ensures r.None? <==> ':' !in t
    ensures r.Some? ==> r.value < |t| && t[r.value] == ':' && ':' !in t[r.value + 1..]
  {
    if t == [] then None
    else if t[|t| - 1] == ':' then Some(|t| - 1)
    else LastColon(t[..|t| - 1])
  }

  /** Text of a token after its last `:` (all of it when there is none): the value. */
  function ValueField(t: string): (v: string)
    ensures ':' !in v
  {
    match LastColon(t)
    case None => t
    case Some(p) => t[p + 1..]
  }

  /** Text between the last two `:` of a token (from its start when there is one `:`,
      empty when there is none): the sparse index. */
  function IndexField(t: string): (x: string)
    ensures ':' !in x
  {
    match LastColon(t)
    case None => ""
    case Some(p) => ValueField(t[..p])
  }

  /** The value text is the tail of the token after its last `:`, the index text lies
      between the last two `:`; neither holds a `:`, and a token without `:` is all value. */
  lemma FieldsRules(t: string)
    ensures var v := ValueField(t);
      && |v| <= |t| && v == t[|t| - |v|..] && ':' !in v
      && ':' !in IndexField(t)
      && (':' !in t ==> v == t && IndexField(t) == "")
      && (':' in t ==> |v| < |t| && t[|t| - |v| - 1] == ':'
                       && IndexField(t) == ValueField(t[..|t| - |v| - 1]))
  {
    match LastColon(t)
    case None =>
    case Some(p) =>
      var u := t[..p];
      match LastColon(u)
      case None =>
      case Some(q) =>
  }

  /** GetSequenceId: a `|` under the cursor means "the previous id"; otherwise a
      maximal run of digits followed, after spaces and tabs, by `|`. */
  function SequenceIdSpec(b: string, i: nat, previous: nat): (r: Scan<nat>)
    requires i <= |b|
    ensures r.NotFound? ==> r.at == i
    ensures r.Found? ==> i <= r.next < |b| && IsNamePrefix(b[r.next])
  {
    var c := At(b, i);
    if IsNamePrefix(c) then Found(previous, i)
    else if !IsDigit(c) then NotFound(i)
    else
      var j := SkipWhile(b, i, Digits);
      var k := SkipWhile(b, j, Blanks);
      if !IsNamePrefix(At(b, k)) then NotFound(i)
      else match Stoull(b[i..j])
        case None => Raised(k)
        case Some(id) => Found(id, k)
  }

  /** GetName: `|`, a maximal (possibly empty) run of letters and digits, spaces and
      tabs, and then a character that starts a number, where the cursor stops. */
  function NameSpec(b: string, i: nat): (r: Scan<string>)
    requires i <= |b|
    ensures r.NotFound? ==> r.at == i
    ensures !r.Raised?
    ensures r.Found? ==> i < r.next < |b| && IsNumber(b[r.next])
  {
    if !IsNamePrefix(At(b, i)) then NotFound(i)
    else
      var j := SkipWhile(b, i + 1, NameChars);
      var k := SkipWhile(b, j, Blanks);
      if !IsNumber(At(b, k)) then NotFound(i) else Found(b[i + 1..j], k)
  }

  /** The conversions of GetValue: the value text by std::stod when the token has a
      decimal point and by std::stoll otherwise, the index text by std::stoull, an
      empty index text standing for a dense value; None when a conversion throws. */
  function ConvertValue(isFloat: bool, valueText: string, indexText: string): (r: Option<Value>)
    ensures r.Some? ==> (r.value.kind == Double <==> isFloat) && r.value.index <= SIZE_MAX
  {
    var number: Option<real> :=
      if isFloat then Stod(valueText)
      else match Stoll(valueText) case None => None case Some(n) => Some(n as real);
    var index: Option<nat> :=
      if indexText == "" then Some(SIZE_MAX) else Stoull(indexText);
    if number.None? || index.None? then None
    else Some(Value(if isFloat then Double else Int16, number.value, index.value))
  }

  /** The value a token denotes, or None when a conversion throws. */
  function TokenValue(token: string): (r: Option<Value>)
    ensures r.Some? ==> (r.value.kind == Double <==> Count(token, Points) == 1)
  {
    ConvertValue(Count(token, Points) == 1, ValueField(token), IndexField(token))
  }

  /** What the conversions of GetValue produce: a value of kind Double or Int16, whose
      number is what std::stod or std::stoll reads from the value text, and whose index
      is SIZE_MAX (dense) without index text and std::stoull of it otherwise; the
      result is None exactly when one of the conversions throws. */
  lemma ConvertValueRules(isFloat: bool, valueText: string, indexText: string)
    ensures var r := ConvertValue(isFloat, valueText, indexText);
      && (r.Some? ==> r.value.kind == Double || r.value.kind == Int16)
      && (r.Some? && isFloat ==> Stod(valueText) == Some(r.value.value))
      && (r.Some? && !isFloat ==> Stoll(valueText).Some? && r.value.value == Stoll(valueText).value as real)
      && (r.Some? && indexText == "" ==> IsDense(r.value))
      && (r.Some? && indexText != "" ==> Stoull(indexText) == Some(r.value.index))
      && (r.None? <==> (if isFloat then Stod(valueText).None? else Stoll(valueText).None?)
                       || (indexText != "" && Stoull(indexText).None?))
  {
  }

  /** A token without `:` gives a dense value; with index text, the index is that text
      read by std::stoull. */
  lemma TokenValueRules(token: string)
    ensures var r := TokenValue(token);
      && (r.Some? && ':' !in token ==> IsDense(r.value))
      && (r.Some? && IndexField(token) != "" ==> Stoull(IndexField(token)) == Some(r.value.index))
  {
    ConvertValueRules(Count(token, Points) == 1, ValueField(token), IndexField(token));
  }

  /** GetValue: a maximal token of number characters and `:` with at most one sign and at
      most one decimal point, then spaces and tabs, then a number start, `|` or CR/LF. */
  function ValueSpec(b: string, i: nat): (r: Scan<Value>)
    requires i <= |b|
    ensures r.NotFound? || r.Raised? ==> r.Cursor() == i
    ensures r.Found? ==> i < r.next <= |b|
  {
    if !IsNumber(At(b, i)) then NotFound(i)
    else
      var j := SkipWhile(b, i, ValueChars);
      var token := b[i..j];
      if Count(token, Signs) > 1 || Count(token, Points) > 1 then NotFound(i)
      else
        var k := SkipWhile(b, j, Blanks);
        var c := At(b, k);
        if !IsNumber(c) && !IsCommentPrefix(c) && !IsEOL(c) then NotFound(i)
        else match TokenValue(token)
          case None => Raised(i)
          case Some(v) => Found(v, k)
  }

  /** Prefixes the values found so far to the outcome of the rest of the scan. */
  function Prepend(vs: seq<Value>, r: Scan<seq<Value>>): Scan<seq<Value>>
  {
    match r
    case Found(ws, e) => Found(vs + ws, e)
    case NotFound(a) => NotFound(a)
    case Raised(a) => Raised(a)
  }

  /** GetValues: values until `|`, CR/LF or the file size, then the CR/LFs are consumed. */
  function ValuesSpec(b: string, i: nat, fileSize: nat): (r: Scan<seq<Value>>)
    requires i <= |b|
    ensures i <= r.Cursor() <= |b|
    decreases |b| - i
  {
    var c := At(b, i);
    if IsNamePrefix(c) || IsCommentPrefix(c) || IsEOL(c) || i == fileSize then
      Found([], SkipWhile(b, i, LineEnds))
    else match ValueSpec(b, i)
      case NotFound(a) => NotFound(a)
      case Raised(a) => Raised(a)
      case Found(v, k) => Prepend([v], ValuesSpec(b, k, fileSize))
  }

  /** GetSample: a name and then its values. */
  function SampleSpec(b: string, i: nat, fileSize: nat): (r: Scan<Sample>)
    requires i <= |b|
    ensures i <= r.Cursor() <= |b|
    ensures r.Found? ==> i < r.next
  {
    match NameSpec(b, i)
    case NotFound(a) => NotFound(a)
    case Raised(a) => Raised(a)
    case Found(name, k) =>
      match ValuesSpec(b, k, fileSize)
      case NotFound(a) => NotFound(a)
      case Raised(a) => Raised(a)
      case Found(vs, e) => Found(Sample(name, vs), e)
  }

  /** Where the comment text that starts at `s` ends.  The scan is at `j` with `q`
      quotes counted; the character at `s` is copied without being looked at, and a
      `|` after an even number of quotes ends the comment.  Reaching the end of the
      line also ends it. */
  function CommentEnd(b: string, j: nat, q: nat): (e: nat)
    requires j <= |b|
    ensures j <= e <= |b|
    decreases |b| - j
  {
    if j == |b| || IsEOL(b[j]) then j
    else
      var c := At(b, j + 1);
      var q' := if IsEscapeDelimiter(c) then q + 1 else q;
      if IsNamePrefix(c) && q' % 2 == 0 then j + 1 else CommentEnd(b, j + 1, q')
  }

  /** GetComment: `|#`, then the comment text, then the CR/LFs after it are consumed. */
  function CommentSpec(b: string, i: nat): (r: Scan<string>)
    requires i <= |b|
    ensures r.NotFound? ==> r.at == i
    ensures !r.Raised?
    ensures r.Found? ==> i + 2 <= r.next <= |b|
  {
    if !IsCommentPrefix(At(b, i)) || !IsCommentSuffix(At(b, i + 1)) then NotFound(i)
    else
      var e := CommentEnd(b, i + 2, 0);
      Found(b[i + 2..e], SkipWhile(b, e, LineEnds))
  }

  /** How a load ends: all lines consumed, a position nothing parses at (the map is
      cleared), or a conversion that threw (the map is left as it was). */
  datatype Status = Loaded | Rejected | Thrown

  datatype Outcome = Outcome(status: Status, dataset: Dataset)

  /** After one segment of a line: continue at `pos` with the carried id, or stop. */
  datatype Step =
    | Next(pos: nat, previous: nat, dataset: Dataset)
    | Stop(status: Status, dataset: Dataset)

  /** The sequence stored under `id`, or a default one when there is none yet. */
  function Prior(ds: Dataset, id: nat): Sequence
  {
    if id in ds then ds[id] else EmptySequence(0)
  }

  /** Folds one parsed segment into the dataset: the entry for `id` exists afterwards,
      a named sample is appended, and a non-empty comment replaces the old one. */
  function Record(ds: Dataset, id: nat, sample: Sample, comment: string): (r: Dataset)
    ensures id in r && r[id].sequenceId == id
  {
    var s := Prior(ds, id);
    ds[id := Sequence(id,
                      if sample.inputName != "" then s.samples + [sample] else s.samples,
                      if comment != "" then comment else s.comment)]
  }

  /** One pass of the inner loop of LoadSamples at `pos`. */
  function StepSpec(b: string, pos: nat, previous: nat, ds: Dataset, fileSize: nat): (r: Step)
    requires pos < |b|
    ensures r.Next? ==> pos < r.pos <= |b|
    ensures r.Stop? ==> r.status != Loaded
    ensures r.Stop? && r.status == Rejected ==> r.dataset == map[]
  {
    match SequenceIdSpec(b, pos, previous)
    case Raised(_) => Stop(Thrown, ds)
    case NotFound(_) => Stop(Rejected, map[])
    case Found(id, p1) =>
      match SampleSpec(b, p1, fileSize)
      case Raised(_) => Stop(Thrown, ds)
      case Found(sample, p2) => Next(p2, id, Record(ds, id, sample, ""))
      case NotFound(a) =>
        match CommentSpec(b, a)
        case Found(comment, p3) => Next(p3, id, Record(ds, id, Sample("", []), comment))
        case _ => Stop(Rejected, map[])
  }

  /** The inner loop of LoadSamples over one line, from `pos` to the end of the line. */
  function LineSpec(b: string, pos: nat, previous: nat, ds: Dataset, fileSize: nat): (r: Step)
    requires pos <= |b|
    ensures r.Next? ==> r.pos == |b|
    ensures r.Stop? ==> r.status != Loaded
    ensures r.Stop? && r.status == Rejected ==> r.dataset == map[]
    decreases |b| - pos
  {
    if pos >= |b| then Next(pos, previous, ds)
    else match StepSpec(b, pos, previous, ds, fileSize)
      case Stop(st, d) => Stop(st, d)
      case Next(p, prev, d) => LineSpec(b, p, prev, d, fileSize)
  }

  /** The rest of a load once the current line has been scanned. */
  function AfterLine(rest: seq<string>, r: Step, fileSize: nat): (o: Outcome)
    ensures r.Stop? ==> o == Outcome(r.status, r.dataset)
    ensures r.Next? && o.status == Rejected ==> o.dataset == map[]
    decreases |rest|, 1
  {
    match r
    case Stop(st, d) => Outcome(st, d)
    case Next(_, prev, d) => LoadSpec(rest, prev, d, fileSize)
  }

  /** LoadSamples over the lines of a file, carrying the previous sequence id.  A
      rejection always leaves an empty dataset: a load is all or nothing. */
  function LoadSpec(lines: seq<string>, previous: nat, ds: Dataset, fileSize: nat): (o: Outcome)
    ensures o.status == Rejected ==> o.dataset == map[]
    ensures lines == [] ==> o == Outcome(Loaded, ds)
    decreases |lines|, 0
  {
    if lines == [] then Outcome(Loaded, ds)
    else AfterLine(lines[1..], LineSpec(lines[0], 0, previous, ds, fileSize), fileSize)
  }

  /** A whole load from an empty dataset, with the carried id starting at 0. */
  function Load(lines: seq<string>, fileSize: nat): (o: Outcome)
    ensures o.status == Rejected ==> o.dataset == map[]
    ensures lines == [] ==> o == Outcome(Loaded, map[])
  {
    LoadSpec(lines, 0, map[], fileSize)
  }
}
