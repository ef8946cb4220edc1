/** `UploadOrdersUseCaseImpl.execute`: reads a fixed-width text file of
    order rows, stores the rows in batches and answers with the counts and
    the grouped view of every row read.

    The repository is a parameter: `drop` is what `dropIndex` did and
    `insert` what `insertMany` does with a batch. */
module UploadOrders {
  import opened Wrappers
  import opened Text
  import opened Numbers
  import opened Money
  import opened Orders
  import opened Errors
  import opened Files
  import opened Seqs
  import opened OrderAggregation
  import opened UserGrouping

  const BatchSize: nat := 2000
  const MaxConcurrentBatches: nat := 5
  const SuccessMessage := "Arquivo TXT processado e salvo no MongoDB com sucesso"

  /** What `dropIndex` did: it succeeded, or it threw `error`, whose
      `codeName` property, when it has one, is given. */
  datatype DropOutcome = Dropped | DropRejected(error: Thrown, codeName: Option<string>)

  /** What `insertMany` did with one batch: it returned `count` documents,
      or threw a duplicate-key error (code 11000) or any other error. */
  datatype InsertOutcome = Inserted(count: nat) | DuplicateKey | InsertFailed

  datatype UploadResponse = UploadResponse(
    message: string,
    fileName: string,
    fileSize: nat,
    lines: nat,
    savedOrders: int,
    skippedOrders: int,
    data: seq<UserDto>)

  // ---------------------------------------------------------------------
  // One line
  // ---------------------------------------------------------------------

  /** The date field `YYYYMMDD` rewritten as `YYYY-MM-DD`. */
  function DateOf(field: string): string {
    Substring(field, 0, 4) + "-" + Substring(field, 4, 6) + "-" + Substring(field, 6, 8)
  }

  /** The amount field read as cents and divided by 100, with two
      decimals; "NaN" when it holds no number. */
  function ValueOf(field: string): string {
    match FieldCents(field)
    case None => "NaN"
    case Some(c) => FormatCents(c)
  }

  /** `processLine`: the fields at their fixed offsets. A short line gives
      short or empty fields, and a field without a number gives NaN. */
  function ProcessLine(line: string): (r: OrderRecord)
    ensures IsTrimmed(r.name)
  {
    OrderRecord(
      ParseInt(Substring(line, 0, 10)),
      Trim(Substring(line, 10, 55)),
      ParseInt(Substring(line, 55, 65)),
      ParseInt(Substring(line, 65, 75)),
      ValueOf(Substring(line, 75, 87)),
      DateOf(Substring(line, 87, 95)))
  }

  /** With a full-length line, the date is ten characters: the year, '-',
      the month, '-', the day, each copied from the eight-character field
      at offset 87. */
  lemma DateShape(line: string)
    requires |line| >= 95
    ensures var d := ProcessLine(line).date;
      && |d| == 10 && d[4] == '-' && d[7] == '-'
      && d[..4] == line[87..91] && d[5..7] == line[91..93] && d[8..] == line[93..95]
      && d[..4] + d[5..7] + d[8..] == line[87..95]
  {
    var field := line[87..95];
    DateField(line);
    DateOfField(field);
    DateParts(line);
  }

  lemma DateField(line: string)
    requires |line| >= 95
    ensures ProcessLine(line).date == DateOf(line[87..95])
  {
  }

  lemma DateParts(line: string)
    requires |line| >= 95
    ensures line[87..95][..4] == line[87..91]
    ensures line[87..95][4..6] == line[91..93]
    ensures line[87..95][6..] == line[93..95]
  {
  }

  lemma DateOfField(field: string)
    requires |field| == 8
    ensures var d := DateOf(field);
      && |d| == 10 && d[4] == '-' && d[7] == '-'
      && d[..4] == field[..4] && d[5..7] == field[4..6] && d[8..] == field[6..]
      && d[..4] + d[5..7] + d[8..] == field
  {
    DateOfEight(field);
    assert field == field[..4] + field[4..6] + field[6..];
  }

  /** The stored amount reads back as the number in the amount field: the
      two-decimal text when there is one, and "NaN" — which reads as no
      number — when there is none. */
  lemma ValueReadsBack(field: string)
    ensures ParseCents(ValueOf(field)) == FieldCents(field)
  {
    match FieldCents(field)
    case None =>
      ParseCentsNotNumber("NaN");
    case Some(c) =>
      ParseFormatCents(c);
  }

  /** A zero-padded amount field gives its cents with two decimals. */
  lemma ValuePadded(c: nat)
    requires c < Pow10(12)
    ensures ValueOf(PadZeros(c, 12)) == FormatCents(c)
  {
    FieldCentsPadded(c, 12);
  }

  /** The field "000000001000", 1000 cents padded to twelve digits,
      gives the amount 10.00. */
  lemma ValueExample()
    ensures ValueOf(PadZeros(1000, 12)) == "10.00"
  {
    ValuePadded(1000);
    TenFormatted();
  }

  lemma TenFormatted()
    ensures FormatCents(1000) == "10.00"
  {
    assert NatToString(10) == "10";
  }

  // ---------------------------------------------------------------------
  // The fixed-width layout
  // ---------------------------------------------------------------------

  /** The fields of one row as a file producer holds them. */
  datatype Row = Row(userId: nat, name: string, orderId: nat, productId: nat, cents: nat, date: string)

  /** The row fits the layout: ids of at most ten digits, an amount of at
      most twelve, a trimmed name of at most 45 characters and an
      eight-character date. */
  predicate Fits(row: Row) {
    && row.userId < Pow10(10) && row.orderId < Pow10(10) && row.productId < Pow10(10)
    && row.cents < Pow10(12)
    && IsTrimmed(row.name) && |row.name| <= 45
    && |row.date| == 8
  }

  function Spaces(n: nat): (s: string)
    ensures |s| == n && IsBlank(s)
  {
    seq(n, _ => ' ')
  }

  /** The 95-character line of a row: zero-padded numbers, the name padded
      with spaces to 45 characters, the date as it is. */
  function EncodeLine(row: Row): (line: string)
    requires Fits(row)
    ensures |line| == 95
  {
    PadZeros(row.userId, 10) + (row.name + Spaces(45 - |row.name|))
      + PadZeros(row.orderId, 10) + PadZeros(row.productId, 10)
      + PadZeros(row.cents, 12) + row.date
  }

  /** Reading an encoded line gives back every field of the row: the
      numbers, the name, the amount with two decimals, and the date with
      dashes inserted. */
  lemma ReadEncodedLine(row: Row)
    requires Fits(row)
    ensures ProcessLine(EncodeLine(row)) == OrderRecord(
      Some(row.userId), row.name, Some(row.orderId), Some(row.productId),
      FormatCents(row.cents), row.date[..4] + "-" + row.date[4..6] + "-" + row.date[6..])
  {
    EncodedFields(row);
    ReadFields(EncodeLine(row), row);
  }

  /** A line whose fields hold the row's encoded fields reads as the row. */
  lemma ReadFields(line: string, row: Row)
    requires Fits(row)
    requires Substring(line, 0, 10) == PadZeros(row.userId, 10)
    requires Substring(line, 10, 55) == row.name + Spaces(45 - |row.name|)
    requires Substring(line, 55, 65) == PadZeros(row.orderId, 10)
    requires Substring(line, 65, 75) == PadZeros(row.productId, 10)
    requires Substring(line, 75, 87) == PadZeros(row.cents, 12)
    requires Substring(line, 87, 95) == row.date
    ensures ProcessLine(line) == OrderRecord(
      Some(row.userId), row.name, Some(row.orderId), Some(row.productId),
      FormatCents(row.cents), row.date[..4] + "-" + row.date[4..6] + "-" + row.date[6..])
  {
    ReadIds(line, row);
    ReadName(line, row);
    ReadValue(line, row);
    ReadDate(line, row);
  }

  lemma ReadIds(line: string, row: Row)
    requires Fits(row)
    requires Substring(line, 0, 10) == PadZeros(row.userId, 10)
    requires Substring(line, 55, 65) == PadZeros(row.orderId, 10)
    requires Substring(line, 65, 75) == PadZeros(row.productId, 10)
    ensures ProcessLine(line).userId == Some(row.userId)
    ensures ProcessLine(line).orderId == Some(row.orderId)
    ensures ProcessLine(line).productId == Some(row.productId)
  {
    ParseIntPadded(row.userId, 10);
    ParseIntPadded(row.orderId, 10);
    ParseIntPadded(row.productId, 10);
  }

  lemma ReadName(line: string, row: Row)
    requires Fits(row)
    requires Substring(line, 10, 55) == row.name + Spaces(45 - |row.name|)
    ensures ProcessLine(line).name == row.name
  {
    TrimPadded(row.name, Spaces(45 - |row.name|));
  }

  lemma ReadValue(line: string, row: Row)
    requires Fits(row)
    requires Substring(line, 75, 87) == PadZeros(row.cents, 12)
    ensures ProcessLine(line).productValue == FormatCents(row.cents)
  {
    ValuePadded(row.cents);
  }

  lemma ReadDate(line: string, row: Row)
    requires Fits(row)
    requires Substring(line, 87, 95) == row.date
    ensures ProcessLine(line).date == row.date[..4] + "-" + row.date[4..6] + "-" + row.date[6..]
  {
    assert |line| >= 95;
    DateField(line);
    DateOfEight(row.date);
  }

  lemma DateOfEight(field: string)
    requires |field| == 8
    ensures DateOf(field) == field[..4] + "-" + field[4..6] + "-" + field[6..]
  {
  }

  /** Each field of an encoded line sits at its offset. */
  lemma EncodedFields(row: Row)
    requires Fits(row)
    ensures var line := EncodeLine(row);
      && Substring(line, 0, 10) == PadZeros(row.userId, 10)
      && Substring(line, 10, 55) == row.name + Spaces(45 - |row.name|)
      && Substring(line, 55, 65) == PadZeros(row.orderId, 10)
      && Substring(line, 65, 75) == PadZeros(row.productId, 10)
      && Substring(line, 75, 87) == PadZeros(row.cents, 12)
      && Substring(line, 87, 95) == row.date
  {
    var line := EncodeLine(row);
    var p1 := PadZeros(row.userId, 10);
    var p2 := p1 + (row.name + Spaces(45 - |row.name|));
    var p3 := p2 + PadZeros(row.orderId, 10);
    var p4 := p3 + PadZeros(row.productId, 10);
    var p5 := p4 + PadZeros(row.cents, 12);
    assert line == p5 + row.date && line[..|line|] == line;
    FieldAt(line, p5, row.date);
    FieldAt(line, p4, PadZeros(row.cents, 12));
    FieldAt(line, p3, PadZeros(row.productId, 10));
    FieldAt(line, p2, PadZeros(row.orderId, 10));
    FieldAt(line, p1, row.name + Spaces(45 - |row.name|));
    FieldAt(line, [], p1);
  }

  /** A field that follows the prefix `pre` in `line` sits at offset
      `|pre|`. */
  lemma FieldAt(line: string, pre: string, x: string)
    requires |pre + x| <= |line| && line[..|pre + x|] == pre + x
    ensures line[..|pre|] == pre
    ensures Substring(line, |pre|, |pre| + |x|) == x
  {
    assert line[..|pre + x|][..|pre|] == pre;
    assert line[|pre|..|pre| + |x|] == (pre + x)[|pre|..];
  }

  /** The documents one line contributes: none when it trims to nothing,
      its parsed record otherwise. */
  function LineDocs(line: string): (docs: seq<OrderRecord>)
    ensures |docs| <= 1
    ensures docs == [] <==> IsBlank(line)
  {
    TrimEmptyIffBlank(line);
    if Trim(line) == [] then [] else [ProcessLine(line)]
  }

  /** The documents read from the lines, each line in turn. */
  function ParseLines(lines: seq<string>): (docs: seq<OrderRecord>)
    ensures |docs| <= |lines|
  {
    if lines == [] then []
    else ParseLines(lines[..|lines| - 1]) + LineDocs(lines[|lines| - 1])
  }

  /** The documents of a file's content, split on '\n'. */
  function Documents(content: string): seq<OrderRecord> {
    ParseLines(Split(content, '\n'))
  }

  lemma {:induction false} ParseLinesConcat(a: seq<string>, b: seq<string>)
    ensures ParseLines(a + b) == ParseLines(a) + ParseLines(b)
  {
    if b != [] {
      var q := b[..|b| - 1];
      var line := b[|b| - 1];
      ParseLinesConcat(a, q);
      assert (a + b)[..|a + b| - 1] == a + q;
      assert (a + b)[|a + b| - 1] == line;
      ConcatAssoc(ParseLines(a), ParseLines(q), LineDocs(line));
    } else {
      assert a + b == a;
    }
  }

  /** Lines are read independently: the documents of two pieces of content
      joined by a line break are the documents of each piece in turn. */
  lemma DocumentsJoin(a: string, b: string)
    ensures Documents(a + "\n" + b) == Documents(a) + Documents(b)
  {
    assert a + "\n" + b == a + ['\n'] + b;
    SplitAtSeparator(a, '\n', b);
    ParseLinesConcat(Split(a, '\n'), Split(b, '\n'));
  }

  /** A line of white space yields no document; any other line yields
      exactly its parsed record. */
  lemma OneLine(line: string)
    requires '\n' !in line
    ensures IsBlank(line) ==> Documents(line) == []
    ensures !IsBlank(line) ==> Documents(line) == [ProcessLine(line)]
  {
    SplitNoSeparator(line, '\n');
    TrimEmptyIffBlank(line);
    assert [line][..0] == [];
  }

  /** Blank lines at the end of a file change nothing. */
  lemma TrailingBlankLines(content: string)
    ensures Documents(content + "\n\n") == Documents(content)
  {
    var once := content + "\n";
    NoDocumentsInEmpty();
    DocumentsJoin(content, "");
    assert Documents(once) == Documents(content) by {
      assert once + "" == once;
    }
    DocumentsJoin(once, "");
    AppendPair(content, '\n', '\n');
  }

  lemma NoDocumentsInEmpty()
    ensures Documents("") == []
  {
    OneLine("");
  }

  // ---------------------------------------------------------------------
  // Saving
  // ---------------------------------------------------------------------

  /** `saveBatch`: an empty batch saves nothing; otherwise what
      `insertMany` returned, and 0 when it threw, whatever the error. */
  function SaveBatch(batch: seq<OrderRecord>, insert: seq<OrderRecord> -> InsertOutcome): nat {
    if batch == [] then 0
    else match insert(batch)
      case Inserted(n) => n
      case DuplicateKey => 0
      case InsertFailed => 0
  }

  /** What a sequence of batches saves. */
  function SavedTotal(batches: seq<seq<OrderRecord>>, insert: seq<OrderRecord> -> InsertOutcome): nat {
    if batches == [] then 0 else SaveBatch(batches[0], insert) + SavedTotal(batches[1..], insert)
  }

  /** What the waves save, one wave after the other. */
  function WavesSaved(waves: seq<seq<seq<OrderRecord>>>, insert: seq<OrderRecord> -> InsertOutcome): nat {
    if waves == [] then 0 else SavedTotal(waves[0], insert) + WavesSaved(waves[1..], insert)
  }

  lemma {:induction false} SavedTotalConcat(a: seq<seq<OrderRecord>>, b: seq<seq<OrderRecord>>, insert: seq<OrderRecord> -> InsertOutcome)
    ensures SavedTotal(a + b, insert) == SavedTotal(a, insert) + SavedTotal(b, insert)
  {
    if a != [] {
      assert (a + b)[1..] == a[1..] + b;
      SavedTotalConcat(a[1..], b, insert);
    } else {
      assert a + b == b;
    }
  }

  /** Cutting the batches into waves changes nothing in what is saved:
      every batch is sent exactly once. */
  lemma {:induction false} WavesSaveEveryBatch(waves: seq<seq<seq<OrderRecord>>>, insert: seq<OrderRecord> -> InsertOutcome)
    ensures WavesSaved(waves, insert) == SavedTotal(Flatten(waves), insert)
  {
    if waves != [] {
      WavesSaveEveryBatch(waves[1..], insert);
      SavedTotalConcat(waves[0], Flatten(waves[1..]), insert);
    }
  }

  /** A repository that reports at most the documents it was given. */
  ghost predicate ReportsAtMostBatch(insert: seq<OrderRecord> -> InsertOutcome) {
    forall b :: insert(b).Inserted? ==> insert(b).count <= |b|
  }

  /** A repository that stores every document. */
  ghost predicate InsertsAll(insert: seq<OrderRecord> -> InsertOutcome) {
    forall b :: insert(b) == Inserted(|b|)
  }

  /** A repository that rejects every batch. */
  ghost predicate RejectsAll(insert: seq<OrderRecord> -> InsertOutcome) {
    forall b :: !insert(b).Inserted?
  }

  /** What is saved is at most, exactly, or none of the documents sent,
      as the repository reports. */
  lemma {:induction false} SavedBounds(batches: seq<seq<OrderRecord>>, insert: seq<OrderRecord> -> InsertOutcome)
    ensures ReportsAtMostBatch(insert) ==> SavedTotal(batches, insert) <= |Flatten(batches)|
    ensures InsertsAll(insert) ==> SavedTotal(batches, insert) == |Flatten(batches)|
    ensures RejectsAll(insert) ==> SavedTotal(batches, insert) == 0
  {
    if batches != [] {
      SavedBounds(batches[1..], insert);
    }
  }

  // ---------------------------------------------------------------------
  // Batches and waves
  // ---------------------------------------------------------------------

  /** The documents cut into batches of `BatchSize`. */
  function Batches(docs: seq<OrderRecord>): seq<seq<OrderRecord>> {
    Chunks(docs, BatchSize)
  }

  /** The batches cut into waves of `MaxConcurrentBatches`, each wave sent
      at once. */
  function Waves(batches: seq<seq<OrderRecord>>): seq<seq<seq<OrderRecord>>> {
    Chunks(batches, MaxConcurrentBatches)
  }

  /** Every document goes into exactly one batch, in order; every batch
      but the last is full, and there are as few batches as that allows. */
  lemma BatchesOf(docs: seq<OrderRecord>)
    ensures Flatten(Batches(docs)) == docs
    ensures forall k :: 0 <= k < |Batches(docs)| ==> 1 <= |Batches(docs)[k]| <= BatchSize
    ensures forall k :: 0 <= k < |Batches(docs)| - 1 ==> |Batches(docs)[k]| == BatchSize
    ensures docs != [] ==> (|Batches(docs)| - 1) * BatchSize < |docs| <= |Batches(docs)| * BatchSize
  {
    FlattenChunks(docs, BatchSize);
    ChunkSizes(docs, BatchSize);
    ChunkCount(docs, BatchSize);
  }

  /** Every batch goes into exactly one wave, in order, and no wave sends
      more than `MaxConcurrentBatches` batches at once. */
  lemma WavesOf(batches: seq<seq<OrderRecord>>)
    ensures Flatten(Waves(batches)) == batches
    ensures forall k :: 0 <= k < |Waves(batches)| ==> 1 <= |Waves(batches)[k]| <= MaxConcurrentBatches
    ensures |Waves(batches)| == 0 <==> batches == []
  {
    FlattenChunks(batches, MaxConcurrentBatches);
    ChunkSizes(batches, MaxConcurrentBatches);
    ChunkCount(batches, MaxConcurrentBatches);
  }

  /** `saveBatch` over the waves counts every batch once. */
  lemma WavesSaveAll(docs: seq<OrderRecord>, insert: seq<OrderRecord> -> InsertOutcome)
    ensures WavesSaved(Waves(Batches(docs)), insert) == SavedTotal(Batches(docs), insert)
  {
    WavesSaveEveryBatch(Waves(Batches(docs)), insert);
    FlattenChunks(Batches(docs), MaxConcurrentBatches);
  }

  /** The batching loop: `documents.slice(i, i + batchSize)` for
      `i = 0, batchSize, 2 * batchSize, ...` while `i` is in range. */
  method MakeBatches(documents: seq<OrderRecord>) returns (batches: seq<seq<OrderRecord>>)
    ensures batches == Batches(documents)
  {
    batches := [];
    var i: nat := 0;
    while i < |documents|
      invariant batches + Chunks(documents[Min(i, |documents|)..], BatchSize) == Batches(documents)
      decreases |documents| - i
    {
      var j := Min(i + BatchSize, |documents|);
      ChunksFrom(documents, i, BatchSize);
      ConcatAssoc(batches, [documents[i..j]], Chunks(documents[j..], BatchSize));
      batches := batches + [documents[i..j]];
      i := i + BatchSize;
      assert Min(i, |documents|) == j;
    }
    assert documents[Min(i, |documents|)..] == [];
  }

  /** The saving loop: the batches go out `MaxConcurrentBatches` at a
      time, and the counts of each wave are added up. */
  method SaveInWaves(batches: seq<seq<OrderRecord>>, insert: seq<OrderRecord> -> InsertOutcome) returns (saved: nat)
    ensures saved == WavesSaved(Waves(batches), insert)
    ensures saved == SavedTotal(batches, insert)
  {
    saved := 0;
    var i: nat := 0;
    while i < |batches|
      invariant saved + WavesSaved(Chunks(batches[Min(i, |batches|)..], MaxConcurrentBatches), insert)
        == WavesSaved(Waves(batches), insert)
      decreases |batches| - i
    {
      var j := Min(i + MaxConcurrentBatches, |batches|);
      var currentBatches := batches[i..j];
      ChunksFrom(batches, i, MaxConcurrentBatches);
      var rest := Chunks(batches[j..], MaxConcurrentBatches);
      assert ([currentBatches] + rest)[1..] == rest;
      var batchInserted := SavedTotal(currentBatches, insert);
      saved := saved + batchInserted;
      i := i + MaxConcurrentBatches;
      assert Min(i, |batches|) == j;
    }
    assert batches[Min(i, |batches|)..] == [];
    WavesSaveEveryBatch(Waves(batches), insert);
    FlattenChunks(batches, MaxConcurrentBatches);
  }

  // ---------------------------------------------------------------------
  // The whole upload
  // ---------------------------------------------------------------------

  /** A `dropIndex` failure ends the upload only when what was thrown is
      an object with a `codeName` other than "IndexNotFound"; every other
      failure is passed over. */
  predicate DropIsFatal(drop: DropOutcome) {
    drop.DropRejected? && drop.error.Error? && drop.codeName.Some? && drop.codeName.value != "IndexNotFound"
  }

  /** The answer once the documents `docs` of `file` are read and sent. */
  function Accepted(file: UploadFile, docs: seq<OrderRecord>, insert: seq<OrderRecord> -> InsertOutcome): UploadResponse {
    var saved := WavesSaved(Waves(Batches(docs)), insert);
    UploadResponse(SuccessMessage, file.originalName, file.size, |docs|, saved, |docs| - saved, Group(docs))
  }

  /** What `execute` answers, or what it throws. */
  function Upload(file: Option<UploadFile>, drop: DropOutcome, insert: seq<OrderRecord> -> InsertOutcome): Result<UploadResponse, Thrown> {
    if file.None? then Err(Plain(NoFileMessage))
    else if !IsTxt(file.value.originalName) then Err(Plain(NotTxtMessage))
    else if DropIsFatal(drop) then Err(drop.error)
    else Ok(Accepted(file.value, Documents(file.value.content), insert))
  }

  /** The upload fails exactly when there is no file, its name does not
      end in a "txt" extension, or dropping the index failed fatally, and
      then with the matching error. */
  lemma UploadFails(file: Option<UploadFile>, drop: DropOutcome, insert: seq<OrderRecord> -> InsertOutcome)
    ensures Upload(file, drop, insert).Err? <==>
      file.None? || !IsTxt(file.value.originalName) || DropIsFatal(drop)
    ensures file.None? ==> Upload(file, drop, insert) == Err(Error(NoFileMessage, None))
    ensures file.Some? && !IsTxt(file.value.originalName) ==> Upload(file, drop, insert) == Err(Error(NotTxtMessage, None))
    ensures file.Some? && IsTxt(file.value.originalName) && DropIsFatal(drop) ==>
      Upload(file, drop, insert).Err? && Upload(file, drop, insert).error == drop.error && drop.error.Error?
  {
  }

  /** A successful upload reports every non-blank line as a document,
      splits them into saved and skipped, and groups every one of them
      into exactly one product of the response data. */
  lemma UploadSucceeds(file: UploadFile, drop: DropOutcome, insert: seq<OrderRecord> -> InsertOutcome)
    requires IsTxt(file.originalName) && !DropIsFatal(drop)
    ensures var r := Upload(Some(file), drop, insert);
      var docs := Documents(file.content);
      r.Ok? && r.value.message == SuccessMessage &&
      r.value.fileName == file.originalName && r.value.fileSize == file.size &&
      r.value.lines == |docs| &&
      r.value.savedOrders + r.value.skippedOrders == r.value.lines &&
      r.value.savedOrders == SavedTotal(Batches(docs), insert) &&
      Total(r.value.data, OrderProducts) == r.value.lines
  {
    var docs := Documents(file.content);
    assert Upload(Some(file), drop, insert) == Ok(Accepted(file, docs, insert));
    WavesSaveAll(docs, insert);
    GroupProductCount(docs);
  }

  /** The counts as the repository behaves: never a negative skip count
      when it reports at most what it was given, nothing skipped when it
      stores everything, everything skipped when it rejects every batch. */
  lemma UploadCounts(file: UploadFile, drop: DropOutcome, insert: seq<OrderRecord> -> InsertOutcome)
    requires IsTxt(file.originalName) && !DropIsFatal(drop)
    ensures var r := Upload(Some(file), drop, insert);
      r.Ok? &&
      (ReportsAtMostBatch(insert) ==> 0 <= r.value.skippedOrders) &&
      (InsertsAll(insert) ==> r.value.savedOrders == r.value.lines && r.value.skippedOrders == 0) &&
      (RejectsAll(insert) ==> r.value.savedOrders == 0 && r.value.skippedOrders == r.value.lines)
  {
    var docs := Documents(file.content);
    UploadSucceeds(file, drop, insert);
    SavedBounds(Batches(docs), insert);
    FlattenChunks(docs, BatchSize);
  }

  /** Every tolerated `dropIndex` failure leaves the upload as if the
      index had been dropped. */
  lemma DropTolerated(file: Option<UploadFile>, drop: DropOutcome, insert: seq<OrderRecord> -> InsertOutcome)
    requires !DropIsFatal(drop)
    ensures Upload(file, drop, insert) == Upload(file, Dropped, insert)
  {
  }

  /** The three tolerated shapes: a missing index, an error without a
      `codeName`, and a thrown value that is not an object. */
  lemma ToleratedDrops(message: string, status: Option<int>)
    ensures !DropIsFatal(DropRejected(Error(message, status), Some("IndexNotFound")))
    ensures !DropIsFatal(DropRejected(Error(message, status), None))
    ensures forall code :: !DropIsFatal(DropRejected(NotAnError, code))
  {
  }

  lemma ParseLinesStep(lines: seq<string>, i: nat)
    requires i < |lines|
    ensures ParseLines(lines[..i + 1]) == ParseLines(lines[..i]) + LineDocs(lines[i])
  {
    assert lines[..i + 1][..i] == lines[..i];
  }

  lemma LineDocsOf(line: string)
    ensures Trim(line) == [] ==> LineDocs(line) == []
    ensures Trim(line) != [] ==> LineDocs(line) == [ProcessLine(line)]
  {
  }

  /** The reading loop of `execute`: every line of the content that does
      not trim to nothing is parsed and counted. */
  method ReadDocuments(content: string) returns (documents: seq<OrderRecord>, lineCount: nat)
    ensures documents == Documents(content)
    ensures lineCount == |documents|
  {
    var lines := Split(content, '\n');
    documents := [];
    lineCount := 0;
    for i := 0 to |lines|
      invariant documents == ParseLines(lines[..i])
      invariant lineCount == |documents|
    {
      ParseLinesStep(lines, i);
      var line := lines[i];
      LineDocsOf(line);
      if Trim(line) == [] {
        assert ParseLines(lines[..i + 1]) == documents + [];
        continue;
      }
      lineCount := lineCount + 1;
      documents := documents + [ProcessLine(line)];
      assert documents == ParseLines(lines[..i + 1]);
    }
    assert lines[..|lines|] == lines;
  }

  /** `execute`: parse the lines, drop the unique index, save the
      batches wave by wave and answer with the grouped documents. */
  method Execute(file: Option<UploadFile>, drop: DropOutcome, insert: seq<OrderRecord> -> InsertOutcome)
    returns (result: Result<UploadResponse, Thrown>)
    ensures result == Upload(file, drop, insert)
  {
    if file.None? {
      return Err(Plain(NoFileMessage));
    }
    var fileExtension := Extension(file.value.originalName);
    if fileExtension != "txt" {
      assert Upload(file, drop, insert) == Err(Plain(NotTxtMessage));
      return Err(Plain(NotTxtMessage));
    }
    var documents, lineCount := ReadDocuments(file.value.content);
    if DropIsFatal(drop) {
      assert Upload(file, drop, insert) == Err(drop.error);
      return Err(drop.error);
    }
    var response := Respond(file.value, documents, lineCount, insert);
    assert documents == Documents(file.value.content);
    return Ok(response);
  }

  /** The accepted path of `execute`: save the batches wave by wave and
      answer with the counts and the grouped documents. */
  method Respond(file: UploadFile, documents: seq<OrderRecord>, lineCount: nat, insert: seq<OrderRecord> -> InsertOutcome)
    returns (response: UploadResponse)
    requires lineCount == |documents|
    ensures response == Accepted(file, documents, insert)
  {
    var batches := MakeBatches(documents);
    var savedOrders := SaveInWaves(batches, insert);
    var skippedOrders := |documents| - savedOrders;
    var groupedData := GroupAndSum(documents);
    response := UploadResponse(SuccessMessage, file.originalName, file.size,
                               lineCount, savedOrders, skippedOrders, groupedData);
  }
}
