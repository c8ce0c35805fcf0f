/**
 * The LogFile of log_file.cpp: a table of generators, each of which
 * contributes one column (two for addMeanSDColumns) to every row; a header
 * line emitted once, after which the table is locked; automatic logging
 * every logInterval generations; explicit flushing every flushInterval
 * rows; and the Dictionary of the last row's non-NULL values.
 *
 * What a generator produces comes from the simulation and from running user
 * scripts; here the rendered cells of a row are a parameter, None standing
 * for a NULL value (logged as NA, with no dictionary entry).
 */
module SlimLogFile {
  import opened EidosValue
  import EidosStrings

  /** The generator kinds of LogFileGeneratorType, with the subpopulation id or script source each keeps. */
  datatype Generator =
    | Generation
    | GenerationStage
    | PopulationSexRatio
    | PopulationSize
    | SubpopulationSexRatio(subpopId: int)
    | SubpopulationSize(subpopId: int)
    | CustomScript(source: string)
    | CustomMeanAndSD(source: string)

  /** How AppendNewRow asks for the row to be written. */
  datatype FlushKind = DefaultFlush | NoFlush | ForceFlush

  /** The number of columns a generator fills: the mean and sd columns for addMeanSDColumns, else one. */
  function Width(g: Generator): (n: nat)
    ensures 1 <= n <= 2
    ensures n == 2 <==> g.CustomMeanAndSD?
  {
    if g.CustomMeanAndSD? then 2 else 1
  }

  /** The number of columns of a generator table. */
  function ColumnCount(gs: seq<Generator>): (n: nat)
    ensures |gs| <= n <= 2 * |gs|
  {
    if |gs| == 0 then 0 else ColumnCount(gs[..|gs| - 1]) + Width(gs[|gs| - 1])
  }

  lemma ColumnCountAppend(gs: seq<Generator>, g: Generator)
    ensures ColumnCount(gs + [g]) == ColumnCount(gs) + Width(g)
  {
    assert (gs + [g])[..|gs|] == gs;
  }

  lemma {:induction false} ColumnCountPrefix(gs: seq<Generator>, k: nat)
    requires k <= |gs|
    ensures ColumnCount(gs[..k]) <= ColumnCount(gs)
    decreases |gs| - k
  {
    if k < |gs| {
      ColumnCountPrefix(gs, k + 1);
      var prefix := gs[..k + 1];
      assert prefix[..|prefix| - 1] == gs[..k];
      assert ColumnCount(prefix) == ColumnCount(gs[..k]) + Width(gs[k]);
    } else {
      assert gs[..k] == gs;
    }
  }

  /** s ends with suffix (Eidos_string_hasSuffix). */
  predicate HasSuffix(s: string, suffix: string)
  {
    |suffix| <= |s| && s[|s| - |suffix|..] == suffix
  }

  /** The user-visible path ConfigureFile keeps: with compression, ".gz" is added unless already there. */
  function CompressedPath(path: string, compress: bool): (r: string)
    ensures compress ==> HasSuffix(r, ".gz")
    ensures !compress || HasSuffix(path, ".gz") ==> r == path
    ensures r == path || r == path + ".gz"
  {
    if compress && !HasSuffix(path, ".gz") then path + ".gz" else path
  }

  /** Correcting a path twice adds nothing more: ".gz" is never doubled. */
  lemma CompressedPathIdempotent(path: string, compress: bool)
    ensures CompressedPath(CompressedPath(path, compress), compress) == CompressedPath(path, compress)
  {
  }

  /** How a cell is logged: NULL as NA, anything else as its rendering. */
  function Render(cell: Option<string>): string
  {
    match cell
    case None => "NA"
    case Some(text) => text
  }

  /** The cells of a row, rendered. */
  function Rendered(cells: seq<Option<string>>): (r: seq<string>)
    ensures |r| == |cells|
    ensures forall i :: 0 <= i < |cells| ==> r[i] == Render(cells[i])
  {
    seq(|cells|, i requires 0 <= i < |cells| => Render(cells[i]))
  }

  /** The text of a row: the rendered cells with the separator between neighbours. */
  function RowText(cells: seq<Option<string>>, sep: string): string
  {
    EidosStrings.Join(Rendered(cells), sep)
  }

  /**
   * The Dictionary after a row: each column name with a non-NULL value
   * is bound to it, a later column overriding an earlier one of the same
   * name.
   */
  function Entries(names: seq<string>, cells: seq<Option<string>>): map<string, string>
    requires |names| == |cells|
  {
    if |names| == 0 then map[]
    else
      var k := |names| - 1;
      var before := Entries(names[..k], cells[..k]);
      if cells[k].None? then before else before[names[k] := cells[k].value]
  }

  /** The dictionary's keys are the names of the columns with a value, and only those. */
  lemma {:induction false} EntriesKeys(names: seq<string>, cells: seq<Option<string>>)
    requires |names| == |cells|
    ensures forall key :: key in Entries(names, cells) <==> exists i :: 0 <= i < |names| && names[i] == key && cells[i].Some?
    decreases |names|
  {
    if |names| > 0 {
      var k := |names| - 1;
      EntriesKeys(names[..k], cells[..k]);
      forall key | key in Entries(names, cells)
        ensures exists i :: 0 <= i < |names| && names[i] == key && cells[i].Some?
      {
        if key in Entries(names[..k], cells[..k]) {
          var i :| 0 <= i < k && names[..k][i] == key && cells[..k][i].Some?;
          assert names[i] == key && cells[i].Some?;
        } else {
          assert names[k] == key && cells[k].Some?;
        }
      }
      forall key | exists i :: 0 <= i < |names| && names[i] == key && cells[i].Some?
        ensures key in Entries(names, cells)
      {
        var i :| 0 <= i < |names| && names[i] == key && cells[i].Some?;
        if i < k {
          assert names[..k][i] == key && cells[..k][i].Some?;
        }
      }
    }
  }

  /** The last column of a name decides its value: the value bound to a name is that of its last column with a value. */
  lemma {:induction false} EntriesLastWins(names: seq<string>, cells: seq<Option<string>>, i: nat)
    requires |names| == |cells| && i < |names| && cells[i].Some?
    requires forall j :: i < j < |names| && names[j] == names[i] ==> cells[j].None?
    ensures names[i] in Entries(names, cells) && Entries(names, cells)[names[i]] == cells[i].value
    decreases |names|
  {
    var k := |names| - 1;
    if i < k {
      assert names[..k][i] == names[i] && cells[..k][i] == cells[i];
      EntriesLastWins(names[..k], cells[..k], i);
    }
  }

  /** Joining one more piece adds the separator and that piece (nothing before the first). */
  lemma {:induction false} JoinStep(pieces: seq<string>, k: nat, sep: string)
    requires k < |pieces|
    ensures EidosStrings.Join(pieces[..k + 1], sep) ==
      (if k == 0 then "" else EidosStrings.Join(pieces[..k], sep) + sep) + pieces[k]
    decreases k
  {
    if k >= 2 {
      var tail := pieces[1..];
      JoinStep(tail, k - 1, sep);
      assert pieces[..k + 1][1..] == tail[..k];
      assert pieces[..k][1..] == tail[..k - 1];
    } else if k == 1 {
      assert pieces[..2][1..] == [pieces[1]];
    }
  }

  lemma EntriesStep(names: seq<string>, cells: seq<Option<string>>, c: nat)
    requires |names| == |cells| && c < |names|
    ensures Entries(names[..c + 1], cells[..c + 1]) ==
      if cells[c].None? then Entries(names[..c], cells[..c])
      else Entries(names[..c], cells[..c])[names[c] := cells[c].value]
  {
    assert names[..c + 1][..c] == names[..c];
    assert cells[..c + 1][..c] == cells[..c];
  }

  class LogFile {
    /** The path as the user sees it, after the ".gz" correction. */
    var userFilePath: string
    var compress: bool
    var sep: string
    var autologgingEnabled: bool
    var logInterval: int
    /** The generation in which the log interval was last set. */
    var autologStart: int
    var explicitFlushing: bool
    var flushInterval: int
    var unflushedRowCount: int
    /** Set by the first row; from then on no generator can be added. */
    var headerLogged: bool
    var generators: seq<Generator>
    var columnNames: seq<string>
    var floatPrecision: int
    /** The Dictionary state: the last row's non-NULL values, by column name. */
    var dictionary: map<string, string>
    /** The lines AppendNewRow has written to the file. */
    var written: seq<string>

    /**
     * Every generator has its column names; the intervals in force are
     * positive; the precision is in [1,22]; the dictionary is empty until
     * the first row and holds only column names as keys.
     */
    predicate Valid()
      reads this
    {
      && |columnNames| == ColumnCount(generators)
      && (autologgingEnabled ==> logInterval >= 1)
      && (explicitFlushing ==> flushInterval >= 1)
      && unflushedRowCount >= 0
      && 1 <= floatPrecision <= 22
      && (!headerLogged ==> dictionary == map[])
      && forall key :: key in dictionary ==> key in columnNames
    }

    /** A log file with no generators, no header yet, no automatic logging and default flushing. */
    constructor(path: string, compressOutput: bool, separator: string)
      ensures Valid()
      ensures userFilePath == CompressedPath(path, compressOutput) && compress == compressOutput && sep == separator
      ensures !headerLogged && generators == [] && columnNames == [] && written == [] && dictionary == map[]
      ensures !autologgingEnabled && !explicitFlushing && unflushedRowCount == 0 && floatPrecision == 6
    {
      userFilePath := CompressedPath(path, compressOutput);
      compress := compressOutput;
      sep := separator;
      autologgingEnabled := false;
      logInterval := 0;
      autologStart := 0;
      explicitFlushing := false;
      flushInterval := 0;
      unflushedRowCount := 0;
      headerLogged := false;
      generators := [];
      columnNames := [];
      floatPrecision := 6;
      dictionary := map[];
      written := [];
    }

    /**
     * ConfigureFile: the path gains ".gz" when compressing; compression and
     * separator are replaced. The header lock and the table are kept.
     */
    method ConfigureFile(path: string, compressOutput: bool, separator: string)
      requires Valid()
      modifies this`userFilePath, this`compress, this`sep
      ensures Valid()
      ensures userFilePath == CompressedPath(path, compressOutput)
      ensures compress == compressOutput && sep == separator
    {
      userFilePath := path;
      if compressOutput && !HasSuffix(userFilePath, ".gz") {
        userFilePath := userFilePath + ".gz";
      }
      compress := compressOutput;
      sep := separator;
    }

    /**
     * SetLogInterval: enabling with an interval below 1 raises and changes
     * nothing; otherwise the interval is stored (0 when disabled) and the
     * current generation becomes the start of the count.
     */
    method SetLogInterval(enabled: bool, interval: int, generation: int) returns (r: Outcome)
      requires Valid()
      modifies this`autologgingEnabled, this`logInterval, this`autologStart
      ensures Valid()
      ensures r.Fail? <==> enabled && interval < 1
      ensures r.Fail? ==> r.error == IntervalInvalid && unchanged(this)
      ensures r.Pass? ==> autologgingEnabled == enabled && logInterval == (if enabled then interval else 0) && autologStart == generation
    {
      if enabled && interval < 1 {
        return Fail(IntervalInvalid);
      }
      autologgingEnabled := enabled;
      logInterval := if enabled then interval else 0;
      autologStart := generation;
      r := Pass;
    }

    /** setLogInterval(): NULL turns automatic logging off, an integer turns it on with that interval. */
    method ExecuteSetLogInterval(interval: Option<int>, generation: int) returns (r: Outcome)
      requires Valid()
      modifies this`autologgingEnabled, this`logInterval, this`autologStart
      ensures Valid()
      ensures r.Fail? <==> interval.Some? && interval.value < 1
      ensures interval.None? ==> !autologgingEnabled && logInterval == 0 && autologStart == generation
      ensures r.Pass? && interval.Some? ==> autologgingEnabled && logInterval == interval.value && autologStart == generation
      ensures r.Fail? ==> r.error == IntervalInvalid && unchanged(this)
    {
      match interval
      case None => r := SetLogInterval(false, 0, generation);
      case Some(n) => r := SetLogInterval(true, n, generation);
    }

    /**
     * SetFlushInterval: explicit flushing with an interval below 1 raises
     * and changes nothing; otherwise both are stored as given.
     */
    method SetFlushInterval(explicit: bool, interval: int) returns (r: Outcome)
      requires Valid()
      modifies this`explicitFlushing, this`flushInterval
      ensures Valid()
      ensures r.Fail? <==> explicit && interval < 1
      ensures r.Fail? ==> r.error == IntervalInvalid && unchanged(this)
      ensures r.Pass? ==> explicitFlushing == explicit && flushInterval == interval
    {
      if explicit && interval < 1 {
        return Fail(IntervalInvalid);
      }
      explicitFlushing := explicit;
      flushInterval := interval;
      r := Pass;
    }

    /** The header line: the column names with the separator between them. */
    method HeaderLine() returns (line: string)
      ensures line == EidosStrings.Join(columnNames, sep)
    {
      line := "";
      var c := 0;
      while c < |columnNames|
        invariant 0 <= c <= |columnNames|
        invariant line == EidosStrings.Join(columnNames[..c], sep)
      {
        JoinStep(columnNames, c, sep);
        if c != 0 {
          line := line + sep;
        }
        line := line + columnNames[c];
        c := c + 1;
      }
      assert columnNames[..c] == columnNames;
    }

    /**
     * The row loop of AppendNewRow: generator by generator, each writes its
     * one or two cells into the row text and its non-NULL values into the
     * dictionary under its column names.
     */
    method GenerateRow(cells: seq<Option<string>>) returns (line: string, entries: map<string, string>)
      requires Valid() && |cells| == |columnNames|
      ensures line == RowText(cells, sep)
      ensures entries == Entries(columnNames, cells)
    {
      var rendered := Rendered(cells);
      line := "";
      entries := map[];
      var column := 0;
      var g := 0;
      while g < |generators|
        invariant 0 <= g <= |generators|
        invariant column == ColumnCount(generators[..g]) <= |cells|
        invariant line == EidosStrings.Join(rendered[..column], sep)
        invariant entries == Entries(columnNames[..column], cells[..column])
      {
        line, entries, column := GeneratorCells(cells, rendered, g, column, line, entries);
        g := g + 1;
      }
      assert generators[..g] == generators;
      assert rendered[..column] == rendered && columnNames[..column] == columnNames && cells[..column] == cells;
    }

    /** One pass of the row loop: generator g's cells, the mean and then the sd for addMeanSDColumns. */
    method GeneratorCells(cells: seq<Option<string>>, rendered: seq<string>, g: nat, column: nat, line: string, entries: map<string, string>)
      returns (line': string, entries': map<string, string>, column': nat)
      requires Valid() && |cells| == |columnNames| && rendered == Rendered(cells) && g < |generators|
      requires column == ColumnCount(generators[..g]) <= |cells|
      requires line == EidosStrings.Join(rendered[..column], sep)
      requires entries == Entries(columnNames[..column], cells[..column])
      ensures column' == ColumnCount(generators[..g + 1]) <= |cells|
      ensures line' == EidosStrings.Join(rendered[..column'], sep)
      ensures entries' == Entries(columnNames[..column'], cells[..column'])
    {
      ColumnCountAppend(generators[..g], generators[g]);
      assert generators[..g + 1] == generators[..g] + [generators[g]];
      ColumnCountPrefix(generators, g + 1);
      line', entries', column' := line, entries, column;
      if generators[g].CustomMeanAndSD? {
        // the mean column, then the sd column below
        line', entries' := EmitCell(line', entries', rendered, cells, column');
        column' := column' + 1;
      }
      line', entries' := EmitCell(line', entries', rendered, cells, column');
      column' := column' + 1;
    }

    /** One cell of the row: the separator unless it is the first, its text, and its dictionary entry unless NULL. */
    method EmitCell(line: string, entries: map<string, string>, rendered: seq<string>, cells: seq<Option<string>>, column: nat)
      returns (line': string, entries': map<string, string>)
      requires |cells| == |columnNames| && rendered == Rendered(cells) && column < |cells|
      requires line == EidosStrings.Join(rendered[..column], sep)
      requires entries == Entries(columnNames[..column], cells[..column])
      ensures line' == EidosStrings.Join(rendered[..column + 1], sep)
      ensures entries' == Entries(columnNames[..column + 1], cells[..column + 1])
    {
      JoinStep(rendered, column, sep);
      EntriesStep(columnNames, cells, column);
      line' := if column != 0 then line + sep else line;
      line' := line' + rendered[column];
      entries' := if cells[column].None? then entries else entries[columnNames[column] := cells[column].value];
    }

    /**
     * AppendNewRow: the dictionary is rebuilt from the row; the header line
     * is written before the first row only, which locks the table; with
     * explicit flushing the unflushed count grows by one and reaching the
     * interval forces a flush and resets it.
     */
    method AppendNewRow(cells: seq<Option<string>>) returns (flush: FlushKind)
      requires Valid() && |cells| == |columnNames|
      modifies this`headerLogged, this`written, this`dictionary, this`unflushedRowCount
      ensures Valid()
      ensures headerLogged
      ensures written == old(written) + (if old(headerLogged) then [] else [EidosStrings.Join(columnNames, sep)]) + [RowText(cells, sep)]
      ensures dictionary == Entries(columnNames, cells)
      ensures !explicitFlushing ==> flush == DefaultFlush && unflushedRowCount == old(unflushedRowCount)
      ensures explicitFlushing ==> 0 <= unflushedRowCount < flushInterval
      ensures explicitFlushing && old(unflushedRowCount) + 1 >= flushInterval ==> flush == ForceFlush && unflushedRowCount == 0
      ensures explicitFlushing && old(unflushedRowCount) + 1 < flushInterval ==> flush == NoFlush && unflushedRowCount == old(unflushedRowCount) + 1
    {
      var row, entries := GenerateRow(cells);
      EntriesKeys(columnNames, cells);
      var lines := [row];
      if !headerLogged {
        var header := HeaderLine();
        lines := [header] + lines;
      }
      headerLogged := true;
      dictionary := entries;
      written := written + lines;
      flush := CountRow();
    }

    /**
     * The flush counter at the end of AppendNewRow: with explicit flushing a
     * row is counted, and the file is flushed and the count reset once it
     * reaches the interval; otherwise the default policy applies.
     */
    method CountRow() returns (flush: FlushKind)
      requires Valid()
      modifies this`unflushedRowCount
      ensures Valid()
      ensures !explicitFlushing ==> flush == DefaultFlush && unflushedRowCount == old(unflushedRowCount)
      ensures explicitFlushing ==> 0 <= unflushedRowCount < flushInterval
      ensures explicitFlushing && old(unflushedRowCount) + 1 >= flushInterval ==> flush == ForceFlush && unflushedRowCount == 0
      ensures explicitFlushing && old(unflushedRowCount) + 1 < flushInterval ==> flush == NoFlush && unflushedRowCount == old(unflushedRowCount) + 1
    {
      flush := DefaultFlush;
      if explicitFlushing {
        unflushedRowCount := unflushedRowCount + 1;
        if unflushedRowCount >= flushInterval {
          flush := ForceFlush;
          unflushedRowCount := 0;
        } else {
          flush := NoFlush;
        }
      }
    }

    /**
     * Automatic logging is due in this generation: it is on, and a whole
     * number of intervals has passed since the start. (A remainder of zero
     * is the same under C's truncating % and Dafny's.)
     */
    predicate Due(generation: int)
      requires Valid()
      reads this
    {
      autologgingEnabled && (generation - autologStart) % logInterval == 0
    }

    /**
     * GenerationEndCallout: a row is appended exactly when automatic logging
     * is due, with AppendNewRow's header, dictionary and flush counter;
     * otherwise nothing changes.
     */
    method GenerationEndCallout(generation: int, cells: seq<Option<string>>) returns (appended: bool, flush: FlushKind)
      requires Valid() && |cells| == |columnNames|
      modifies this`headerLogged, this`written, this`dictionary, this`unflushedRowCount
      ensures Valid()
      ensures appended == old(Due(generation))
      ensures !appended ==> unchanged(this)
      ensures appended ==> headerLogged && dictionary == Entries(columnNames, cells)
      ensures appended ==> written == old(written) + (if old(headerLogged) then [] else [EidosStrings.Join(columnNames, sep)]) + [RowText(cells, sep)]
      ensures appended && !explicitFlushing ==> flush == DefaultFlush && unflushedRowCount == old(unflushedRowCount)
      ensures appended && explicitFlushing ==> 0 <= unflushedRowCount < flushInterval
      ensures appended && explicitFlushing && old(unflushedRowCount) + 1 >= flushInterval ==> flush == ForceFlush && unflushedRowCount == 0
      ensures appended && explicitFlushing && old(unflushedRowCount) + 1 < flushInterval ==> flush == NoFlush && unflushedRowCount == old(unflushedRowCount) + 1
    {
      appended, flush := false, DefaultFlush;
      if autologgingEnabled {
        if (generation - autologStart) % logInterval == 0 {
          flush := AppendNewRow(cells);
          appended := true;
        }
      }
    }

    /** logRow(): a row is appended whatever the interval. */
    method LogRow(cells: seq<Option<string>>) returns (flush: FlushKind)
      requires Valid() && |cells| == |columnNames|
      modifies this`headerLogged, this`written, this`dictionary, this`unflushedRowCount
      ensures Valid()
      ensures headerLogged && dictionary == Entries(columnNames, cells)
      ensures written == old(written) + (if old(headerLogged) then [] else [EidosStrings.Join(columnNames, sep)]) + [RowText(cells, sep)]
      ensures !explicitFlushing ==> flush == DefaultFlush && unflushedRowCount == old(unflushedRowCount)
      ensures explicitFlushing ==> 0 <= unflushedRowCount < flushInterval
      ensures explicitFlushing && old(unflushedRowCount) + 1 >= flushInterval ==> flush == ForceFlush && unflushedRowCount == 0
      ensures explicitFlushing && old(unflushedRowCount) + 1 < flushInterval ==> flush == NoFlush && unflushedRowCount == old(unflushedRowCount) + 1
    {
      flush := AppendNewRow(cells);
    }

    /** flush(): the file is flushed, so no row is left unflushed. */
    method Flush()
      requires Valid()
      modifies this`unflushedRowCount
      ensures Valid()
      ensures unflushedRowCount == 0
    {
      unflushedRowCount := 0;
    }

    /** AllKeys: nothing before the header is logged, then the column names in their order. */
    method AllKeys() returns (keys: seq<string>)
      requires Valid()
      ensures !headerLogged ==> keys == []
      ensures headerLogged ==> keys == columnNames
      ensures forall key :: key in dictionary ==> key in keys
    {
      keys := if headerLogged then columnNames else [];
    }

    /** The precision property: a value outside [1,22] raises and leaves the precision as it was. */
    method SetPrecision(value: int) returns (r: Outcome)
      requires Valid()
      modifies this`floatPrecision
      ensures Valid()
      ensures r.Fail? <==> value < 1 || value > 22
      ensures r.Fail? ==> r.error == PrecisionOutOfRange && floatPrecision == old(floatPrecision)
      ensures r.Pass? ==> floatPrecision == value
    {
      if value < 1 || value > 22 {
        return Fail(PrecisionOutOfRange);
      }
      floatPrecision := value;
      r := Pass;
    }

    /** The part of every add* method after its own argument handling: raise when locked, else extend the table. */
    method AddGenerator(g: Generator, names: seq<string>) returns (r: Outcome)
      requires Valid() && |names| == Width(g)
      modifies this`generators, this`columnNames
      ensures Valid()
      ensures r.Fail? <==> headerLogged
      ensures r.Fail? ==> r.error == HeaderLocked && generators == old(generators) && columnNames == old(columnNames)
      ensures r.Pass? ==> generators == old(generators) + [g] && columnNames == old(columnNames) + names
    {
      if headerLogged {
        return Fail(HeaderLocked);
      }
      ColumnCountAppend(generators, g);
      generators := generators + [g];
      columnNames := columnNames + names;
      r := Pass;
    }

    /** addGeneration(): one column, "generation". */
    method AddGeneration() returns (r: Outcome)
      requires Valid()
      modifies this`generators, this`columnNames
      ensures Valid()
      ensures r.Fail? <==> headerLogged
      ensures r.Fail? ==> r.error == HeaderLocked && generators == old(generators) && columnNames == old(columnNames)
      ensures r.Pass? ==> generators == old(generators) + [Generation] && columnNames == old(columnNames) + ["generation"]
    {
      r := AddGenerator(Generation, ["generation"]);
    }

    /** addGenerationStage(): one column, "gen_stage". */
    method AddGenerationStage() returns (r: Outcome)
      requires Valid()
      modifies this`generators, this`columnNames
      ensures Valid()
      ensures r.Fail? <==> headerLogged
      ensures r.Fail? ==> r.error == HeaderLocked && generators == old(generators) && columnNames == old(columnNames)
      ensures r.Pass? ==> generators == old(generators) + [GenerationStage] && columnNames == old(columnNames) + ["gen_stage"]
    {
      r := AddGenerator(GenerationStage, ["gen_stage"]);
    }

    /** addPopulationSexRatio(): one column, "sex_ratio". */
    method AddPopulationSexRatio() returns (r: Outcome)
      requires Valid()
      modifies this`generators, this`columnNames
      ensures Valid()
      ensures r.Fail? <==> headerLogged
      ensures r.Fail? ==> r.error == HeaderLocked && generators == old(generators) && columnNames == old(columnNames)
      ensures r.Pass? ==> generators == old(generators) + [PopulationSexRatio] && columnNames == old(columnNames) + ["sex_ratio"]
    {
      r := AddGenerator(PopulationSexRatio, ["sex_ratio"]);
    }

    /** addPopulationSize(): one column, "num_individuals". */
    method AddPopulationSize() returns (r: Outcome)
      requires Valid()
      modifies this`generators, this`columnNames
      ensures Valid()
      ensures r.Fail? <==> headerLogged
      ensures r.Fail? ==> r.error == HeaderLocked && generators == old(generators) && columnNames == old(columnNames)
      ensures r.Pass? ==> generators == old(generators) + [PopulationSize] && columnNames == old(columnNames) + ["num_individuals"]
    {
      r := AddGenerator(PopulationSize, ["num_individuals"]);
    }

    /** addSubpopulationSexRatio(): one column, "p<id>_sex_ratio"; the subpopulation need not exist. */
    method AddSubpopulationSexRatio(subpopId: int) returns (r: Outcome)
      requires Valid()
      modifies this`generators, this`columnNames
      ensures Valid()
      ensures r.Fail? <==> headerLogged
      ensures r.Fail? ==> r.error == HeaderLocked && generators == old(generators) && columnNames == old(columnNames)
      ensures r.Pass? ==> generators == old(generators) + [SubpopulationSexRatio(subpopId)]
      ensures r.Pass? ==> columnNames == old(columnNames) + ["p" + IntToString(subpopId) + "_sex_ratio"]
    {
      r := AddGenerator(SubpopulationSexRatio(subpopId), ["p" + IntToString(subpopId) + "_sex_ratio"]);
    }

    /** addSubpopulationSize(): one column, "p<id>_num_individuals"; the subpopulation need not exist. */
    method AddSubpopulationSize(subpopId: int) returns (r: Outcome)
      requires Valid()
      modifies this`generators, this`columnNames
      ensures Valid()
      ensures r.Fail? <==> headerLogged
      ensures r.Fail? ==> r.error == HeaderLocked && generators == old(generators) && columnNames == old(columnNames)
      ensures r.Pass? ==> generators == old(generators) + [SubpopulationSize(subpopId)]
      ensures r.Pass? ==> columnNames == old(columnNames) + ["p" + IntToString(subpopId) + "_num_individuals"]
    {
      r := AddGenerator(SubpopulationSize(subpopId), ["p" + IntToString(subpopId) + "_num_individuals"]);
    }

    /**
     * addCustomColumn(): raises when locked, then when the source does not
     * tokenize and parse (parses says whether it does); else one column
     * under the given name.
     */
    method AddCustomColumn(columnName: string, source: string, parses: bool) returns (r: Outcome)
      requires Valid()
      modifies this`generators, this`columnNames
      ensures Valid()
      ensures r.Fail? <==> headerLogged || !parses
      ensures r.Fail? ==> r.error == (if headerLogged then HeaderLocked else ParseFailure)
      ensures r.Fail? ==> generators == old(generators) && columnNames == old(columnNames)
      ensures r.Pass? ==> generators == old(generators) + [CustomScript(source)] && columnNames == old(columnNames) + [columnName]
    {
      if headerLogged {
        return Fail(HeaderLocked);
      }
      if !parses {
        return Fail(ParseFailure);
      }
      r := AddGenerator(CustomScript(source), [columnName]);
    }

    /**
     * addMeanSDColumns(): raises when locked, then when the source does not
     * parse; else one generator and two columns, name_mean and name_sd.
     */
    method AddMeanSDColumns(columnName: string, source: string, parses: bool) returns (r: Outcome)
      requires Valid()
      modifies this`generators, this`columnNames
      ensures Valid()
      ensures r.Fail? <==> headerLogged || !parses
      ensures r.Fail? ==> r.error == (if headerLogged then HeaderLocked else ParseFailure)
      ensures r.Fail? ==> generators == old(generators) && columnNames == old(columnNames)
      ensures r.Pass? ==> generators == old(generators) + [CustomMeanAndSD(source)]
      ensures r.Pass? ==> columnNames == old(columnNames) + [columnName + "_mean", columnName + "_sd"]
    {
      if headerLogged {
        return Fail(HeaderLocked);
      }
      if !parses {
        return Fail(ParseFailure);
      }
      r := AddGenerator(CustomMeanAndSD(source), [columnName + "_mean", columnName + "_sd"]);
    }
  }

  /**
   * The header lock: once a row has been logged, adding a generator raises
   * and leaves the table as it was, and a later row writes no second header.
   */
  method LockedAfterFirstRow(log: LogFile, first: seq<Option<string>>, second: seq<Option<string>>)
    requires log.Valid() && !log.headerLogged
    requires |first| == |log.columnNames| && |second| == |log.columnNames|
    modifies log`headerLogged, log`written, log`dictionary, log`unflushedRowCount, log`generators, log`columnNames
    ensures log.Valid() && log.headerLogged
    ensures log.written == old(log.written) + [EidosStrings.Join(log.columnNames, log.sep), RowText(first, log.sep), RowText(second, log.sep)]
    ensures log.generators == old(log.generators) && log.columnNames == old(log.columnNames)
    ensures log.dictionary == Entries(log.columnNames, second)
  {
    ghost var afterFirst := old(log.written) + [EidosStrings.Join(log.columnNames, log.sep), RowText(first, log.sep)];
    var _ := log.AppendNewRow(first);
    assert log.written == afterFirst;
    var r := log.AddPopulationSize();
    assert r == Fail(HeaderLocked) && log.written == afterFirst;
    var _ := log.AppendNewRow(second);
  }
}
