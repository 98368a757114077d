/**
  The sales-per-month mapper: one comma-separated sales line becomes at most one
  (month-year key, revenue) pair for the reducer, or one status message.

  The Hadoop sinks are replaced by the returned Outcome: `Emit` is one call of
  `output.collect`, `Status` one call of `reporter.setStatus`, `Dropped` neither,
  and `Crash` the ArrayIndexOutOfBoundsException that escapes `map` when field 4
  is non-empty and made of spaces only. `Double.parseDouble` is the parameter
  `parseDouble`: None where it throws NumberFormatException, otherwise the value
  it reads, as a real number.
 */
module VentasPorMes {
  import opened Wrappers
  import opened JavaStrings
  import opened JavaIntegers

  /** The static month table, filled once and only read afterwards. */
  const Meses: map<string, string> := map[
    "01" := "Enero", "02" := "Febrero", "03" := "Marzo", "04" := "Abril",
    "05" := "Mayo", "06" := "Junio", "07" := "Julio", "08" := "Agosto",
    "09" := "Septiembre", "10" := "Octubre", "11" := "Noviembre", "12" := "Diciembre"]

  /** The codes whose key gets the wide pad. */
  const WidePadCodes: set<string> := {"01", "02", "03", "04", "05", "06", "07", "08"}

  datatype Outcome =
    | Dropped
    | Crash
    | Status(message: string)
    | Emit(key: string, value: real)

  /** `meses.get(code)` as Java's string concatenation renders it: a missing
      code reads as the text "null". */
  function MonthName(code: string): (name: string)
    ensures name == "null" <==> code !in Meses
  {
    if code in Meses then Meses[code] else "null"
  }

  /** The key before its pad: month name, the code in parentheses, "/20" and the year. */
  function MonthYear(code: string, yy: string): (r: string)
    ensures |MonthName(code)| + |code| + |yy| + 5 == |r|
    ensures MonthName(code) <= r
    ensures r[|r| - |yy|..] == yy
  {
    MonthName(code) + "(" + code + ")/20" + yy
  }

  /** The alignment pad appended to the key: a run of spaces, then two tabs. */
  function Pad(code: string): (r: string)
    ensures |r| >= 2 && r[|r| - 2] == '\t' && r[|r| - 1] == '\t'
    ensures forall i :: 0 <= i < |r| - 2 ==> r[i] == ' '
  {
    if code in WidePadCodes then "     \t\t" else "\t\t"
  }

  /** The status set when quantity or price is not numeric. */
  function StatusMessage(line: string): (m: string)
    ensures QuotedLine(m) == line
  {
    var m := "Error al procesar la línea: '" + line + "'. Asegúrate de que la cantidad y el precio sean numéricos.";
    assert m[StatusPrefixLength .. |m| - StatusSuffixLength] == line;
    m
  }

  const StatusPrefixLength: nat := |"Error al procesar la línea: '"|
  const StatusSuffixLength: nat := |"'. Asegúrate de que la cantidad y el precio sean numéricos."|

  /** The line quoted in a status message. */
  function QuotedLine(message: string): string
  {
    if |message| < StatusPrefixLength + StatusSuffixLength then ""
    else message[StatusPrefixLength .. |message| - StatusSuffixLength]
  }

  /** `VentasPorMesMapper.map` on one input line. */
  function MapLine(line: string, parseDouble: string -> Option<real>): (o: Outcome)
    ensures |Collected(o)| + |Reported(o)| <= 1
    ensures o.Status? ==> QuotedLine(o.message) == line
    ensures !o.Dropped? ==> |JavaSplit(line, ',')| > 5
    ensures o.Crash? ==> |JavaSplit(line, ',')| > 5 && JavaSplit(JavaSplit(line, ',')[4], ' ') == []
  {
    var fields := JavaSplit(line, ',');
    if |fields| <= 5 then Dropped
    else
      var tokens := JavaSplit(fields[4], ' ');
      if |tokens| == 0 then Crash
      else
        var dateParts := JavaSplit(tokens[0], '/');
        if |dateParts| != 3 then Dropped
        else Revenue(line, fields[2], fields[3], dateParts[0], dateParts[2], parseDouble)
  }

  /** The body of the try block: parse quantity, then price, and emit the pair under the
      padded month-year key; either parse failing sets the status instead. */
  function Revenue(line: string, quantityField: string, priceField: string, code: string, yy: string,
                   parseDouble: string -> Option<real>): (o: Outcome)
    ensures o.Status? || o.Emit?
    ensures o.Emit? <==> ParseInt(quantityField).Some? && parseDouble(priceField).Some?
    ensures o.Status? ==> QuotedLine(o.message) == line
    ensures o.Emit? ==> |o.key| >= |Pad(code)| && o.key[..|o.key| - |Pad(code)|] == MonthYear(code, yy)
  {
    var monthYear := MonthYear(code, yy);
    var quantity := ParseInt(quantityField);
    if quantity.None? then Status(StatusMessage(line))
    else
      var price := parseDouble(priceField);
      if price.None? then Status(StatusMessage(line))
      else Emit(monthYear + Pad(code), Product(quantity.value, price.value))
  }

  /** `numVentas * precio`: the int is widened and multiplied by the price (exactly,
      over the reals). */
  function Product(quantity: int, price: real): (r: real)
    ensures quantity == 0 || price == 0.0 ==> r == 0.0
    ensures price != 0.0 ==> r / price == quantity as real
  {
    quantity as real * price
  }

  /** The pairs handed to the output collector. */
  function Collected(o: Outcome): seq<(string, real)>
  {
    if o.Emit? then [(o.key, o.value)] else []
  }

  /** The messages handed to the reporter. */
  function Reported(o: Outcome): seq<string>
  {
    if o.Status? then [o.message] else []
  }

  /** The line of a record with the given fields. */
  function Record(fields: seq<string>): string
  {
    Join(fields, ',')
  }

  /** A record the mapper reads back field for field: more than five fields, none
      holding a comma, the last one non-empty. */
  predicate WellFormedRecord(fields: seq<string>)
  {
    && |fields| > 5
    && (forall i :: 0 <= i < |fields| ==> ',' !in fields[i])
    && fields[|fields| - 1] != ""
  }

  /** The text of a date field: "code/middle/yy" followed by `rest`. */
  function DateFieldText(code: string, middle: string, yy: string, rest: string): string
  {
    code + "/" + middle + "/" + yy + rest
  }

  /** Date components without slashes or spaces, a non-empty year, and a rest that is
      empty or starts at a space (the time of day). */
  predicate DateFieldParts(code: string, middle: string, yy: string, rest: string)
  {
    && '/' !in code && ' ' !in code
    && '/' !in middle && ' ' !in middle
    && '/' !in yy && ' ' !in yy && yy != ""
    && (rest == "" || rest[0] == ' ')
  }

  // ---------------------------------------------------------------------------
  // The month table and the key

  /** The table maps exactly "01".."12", each to its Spanish month name. */
  lemma MonthTable()
    ensures Meses.Keys == {"01", "02", "03", "04", "05", "06", "07", "08", "09", "10", "11", "12"}
    ensures MonthName("01") == "Enero" && MonthName("02") == "Febrero" && MonthName("03") == "Marzo"
    ensures MonthName("04") == "Abril" && MonthName("05") == "Mayo" && MonthName("06") == "Junio"
    ensures MonthName("07") == "Julio" && MonthName("08") == "Agosto" && MonthName("09") == "Septiembre"
    ensures MonthName("10") == "Octubre" && MonthName("11") == "Noviembre" && MonthName("12") == "Diciembre"
  {
  }

  /** No two codes share a month name. */
  lemma MonthNamesDistinct(c1: string, c2: string)
    requires c1 in Meses && c2 in Meses && c1 != c2
    ensures MonthName(c1) != MonthName(c2)
  {
  }

  /** The key is the month-year prefix followed by the pad: five spaces and two tabs
      for "01".."08", two tabs for every other code; cutting the pad off gives the
      prefix back. */
  lemma KeyLayout(code: string, yy: string)
    ensures code in WidePadCodes ==> Pad(code) == "     \t\t"
    ensures code !in WidePadCodes ==> Pad(code) == "\t\t"
    ensures var key := MonthYear(code, yy) + Pad(code);
      && key[|key| - 2..] == "\t\t"
      && (code in WidePadCodes <==> |Pad(code)| == 7)
      && key[..|key| - |Pad(code)|] == MonthYear(code, yy)
    ensures WidePadCodes <= Meses.Keys
  {
    var key := MonthYear(code, yy) + Pad(code);
    assert key[..|key| - |Pad(code)|] == MonthYear(code, yy);
  }

  // ---------------------------------------------------------------------------
  // Outcomes

  /** A line with at most four commas is dropped silently. */
  lemma FewFieldsDropped(line: string, parseDouble: string -> Option<real>)
    requires Count(line, ',') <= 4
    ensures MapLine(line, parseDouble) == Dropped
  {
  }

  /** Trailing empty fields do not count: a record whose fields after the fifth are all
      empty is dropped silently, whatever its length. */
  lemma TrailingEmptyFieldsDropped(fields: seq<string>, parseDouble: string -> Option<real>)
    requires |fields| > 0
    requires forall i :: 0 <= i < |fields| ==> ',' !in fields[i]
    requires forall i :: 5 <= i < |fields| ==> fields[i] == ""
    ensures MapLine(Record(fields), parseDouble) == Dropped
  {
    var line := Record(fields);
    var r := JavaSplit(line, ',');
    if ',' in line {
      PiecesOfJoin(fields, ',');
      assert |r| <= 5;
    } else {
      assert |r| == 1;
    }
  }

  /** The mapper crashes exactly when the line has more than five fields and field 4 is
      non-empty and made of spaces only. */
  lemma CrashCondition(line: string, parseDouble: string -> Option<real>)
    ensures var fields := JavaSplit(line, ',');
      MapLine(line, parseDouble) == Crash <==>
        |fields| > 5 && fields[4] != "" && forall i :: 0 <= i < |fields[4]| ==> fields[4][i] == ' '
  {
    var fields := JavaSplit(line, ',');
    if |fields| > 5 {
      JavaSplitEmpty(fields[4], ' ');
    }
  }

  /** A date field whose text before the first space has fewer than two slashes is
      dropped silently, without a status. */
  lemma ShortDateDropped(line: string, parseDouble: string -> Option<real>)
    requires |JavaSplit(line, ',')| > 5
    requires var tokens := JavaSplit(JavaSplit(line, ',')[4], ' ');
      |tokens| > 0 && Count(tokens[0], '/') < 2
    ensures MapLine(line, parseDouble) == Dropped
  {
    var tokens := JavaSplit(JavaSplit(line, ',')[4], ' ');
  }

  /** The mapper reads a date field "code/middle/yy[ time]" as the parts [code, middle, yy]. */
  lemma DateParts(code: string, middle: string, yy: string, rest: string)
    requires DateFieldParts(code, middle, yy, rest)
    ensures var tokens := JavaSplit(DateFieldText(code, middle, yy, rest), ' ');
      |tokens| > 0 && JavaSplit(tokens[0], '/') == [code, middle, yy]
  {
    var date := code + "/" + middle + "/" + yy;
    assert DateFieldText(code, middle, yy, rest) == date + rest;
    JavaSplitFirst(date, rest, ' ');
    JoinOfThree(code, middle, yy, '/');
    JavaSplitOfJoin([code, middle, yy], '/');
  }

  /** A well-formed record with a readable date: the pair emitted when both numbers parse,
      with key month name, "(code)/20", year and pad, and value quantity times price;
      otherwise exactly the status quoting the line. */
  lemma RecordOutcome(fields: seq<string>, code: string, middle: string, yy: string, rest: string,
                      parseDouble: string -> Option<real>)
    requires WellFormedRecord(fields)
    requires DateFieldParts(code, middle, yy, rest) && fields[4] == DateFieldText(code, middle, yy, rest)
    ensures var o := MapLine(Record(fields), parseDouble);
      && (ParseInt(fields[2]).Some? && parseDouble(fields[3]).Some? ==>
            o == Emit(MonthYear(code, yy) + Pad(code),
                      Product(ParseInt(fields[2]).value, parseDouble(fields[3]).value)))
      && (ParseInt(fields[2]).None? || parseDouble(fields[3]).None? ==>
            o == Status(StatusMessage(Record(fields))))
  {
    var line := Record(fields);
    JavaSplitOfJoin(fields, ',');
    DateParts(code, middle, yy, rest);
    var tokens := JavaSplit(fields[4], ' ');
    var dateParts := JavaSplit(tokens[0], '/');
    assert dateParts == [code, middle, yy];
    assert MapLine(line, parseDouble) == Revenue(line, fields[2], fields[3], code, yy, parseDouble);
  }

  /** The middle date component never reaches the key: two records that differ only
      there have the same kind of outcome and, when emitted, the same key and value. */
  lemma MiddleComponentIgnored(fields: seq<string>, code: string, middle: string, middle': string,
                               yy: string, rest: string, parseDouble: string -> Option<real>)
    requires WellFormedRecord(fields)
    requires DateFieldParts(code, middle, yy, rest) && fields[4] == DateFieldText(code, middle, yy, rest)
    requires DateFieldParts(code, middle', yy, rest) && ',' !in middle'
    ensures var o := MapLine(Record(fields), parseDouble);
      var o' := MapLine(Record(fields[4 := DateFieldText(code, middle', yy, rest)]), parseDouble);
      && (o.Emit? <==> o'.Emit?) && (o.Status? <==> o'.Status?)
      && (o.Emit? ==> o.key == o'.key && o.value == o'.value)
  {
    var fields' := fields[4 := DateFieldText(code, middle', yy, rest)];
    NoCommaInDate(code, middle, middle', yy, rest);
    assert WellFormedRecord(fields');
    assert fields'[2] == fields[2] && fields'[3] == fields[3];
    RecordOutcome(fields, code, middle, yy, rest, parseDouble);
    RecordOutcome(fields', code, middle', yy, rest, parseDouble);
  }

  /** Replacing the middle component by one without commas keeps the field free of commas. */
  lemma NoCommaInDate(code: string, middle: string, middle': string, yy: string, rest: string)
    requires ',' !in DateFieldText(code, middle, yy, rest) && ',' !in middle'
    ensures ',' !in DateFieldText(code, middle', yy, rest)
  {
    assert DateFieldText(code, middle, yy, rest) == code + ("/" + middle + "/" + yy + rest);
    assert DateFieldText(code, middle', yy, rest) == code + "/" + middle' + ("/" + yy + rest);
    assert "/" + middle + "/" + yy + rest == ("/" + middle) + ("/" + yy + rest);
  }

  /** A status is set exactly for a line that passed both silent checks and whose quantity
      or price did not parse, and it is always the same message around the line. */
  lemma StatusOnlyForNumbers(line: string, parseDouble: string -> Option<real>)
    ensures MapLine(line, parseDouble).Status? ==>
      var fields := JavaSplit(line, ',');
      && |fields| > 5
      && |JavaSplit(fields[4], ' ')| > 0
      && |JavaSplit(JavaSplit(fields[4], ' ')[0], '/')| == 3
      && (ParseInt(fields[2]).None? || parseDouble(fields[3]).None?)
      && MapLine(line, parseDouble).message == StatusMessage(line)
    ensures var fields := JavaSplit(line, ',');
      MapLine(line, parseDouble).Status? <==>
        && |fields| > 5
        && |JavaSplit(fields[4], ' ')| > 0
        && |JavaSplit(JavaSplit(fields[4], ' ')[0], '/')| == 3
        && (ParseInt(fields[2]).None? || parseDouble(fields[3]).None?)
  {
  }

  /** A pair is emitted exactly for a line that passed both silent checks and whose quantity
      and price parsed; its key is built from the first and third date parts and its
      value is quantity times price. */
  lemma EmitOnlyForNumbers(line: string, parseDouble: string -> Option<real>)
    ensures MapLine(line, parseDouble).Emit? ==>
      var fields := JavaSplit(line, ',');
      && |fields| > 5
      && |JavaSplit(fields[4], ' ')| > 0
      && var dateParts := JavaSplit(JavaSplit(fields[4], ' ')[0], '/');
      && |dateParts| == 3
      && ParseInt(fields[2]).Some? && parseDouble(fields[3]).Some?
      && MapLine(line, parseDouble).key == MonthYear(dateParts[0], dateParts[2]) + Pad(dateParts[0])
      && MapLine(line, parseDouble).value == Product(ParseInt(fields[2]).value, parseDouble(fields[3]).value)
    ensures var fields := JavaSplit(line, ',');
      MapLine(line, parseDouble).Emit? <==>
        && |fields| > 5
        && |JavaSplit(fields[4], ' ')| > 0
        && |JavaSplit(JavaSplit(fields[4], ' ')[0], '/')| == 3
        && ParseInt(fields[2]).Some? && parseDouble(fields[3]).Some?
  {
  }

  // ---------------------------------------------------------------------------
  // Sample lines

  /** A day-first date is read month-first: "15/04/21" gives the code "15", which is
      not in the table, so the key is "null(15)/2021" with the short pad. */
  lemma DayFirstDate(parseDouble: string -> Option<real>)
    requires parseDouble("5.0") == Some(5.0)
    ensures MapLine(Record(["1", "ProdA", "10", "5.0", "15/04/21 10:00", "X"]), parseDouble)
         == Emit("null(15)/2021\t\t", 50.0)
  {
    SampleRecords();
    SampleDates();
    SampleNumbers();
    SampleKeys();
    RecordOutcome(["1", "ProdA", "10", "5.0", "15/04/21 10:00", "X"], "15", "04", "21", " 10:00", parseDouble);
  }

  /** A month-first date gets its month name and the wide pad. */
  lemma MonthFirstDate(parseDouble: string -> Option<real>)
    requires parseDouble("5.0") == Some(5.0)
    ensures MapLine(Record(["1", "ProdA", "10", "5.0", "04/15/21 10:00", "X"]), parseDouble)
         == Emit("Abril(04)/2021     \t\t", 50.0)
  {
    SampleRecords();
    SampleDates();
    SampleNumbers();
    SampleKeys();
    RecordOutcome(["1", "ProdA", "10", "5.0", "04/15/21 10:00", "X"], "04", "15", "21", " 10:00", parseDouble);
  }

  /** A quantity that is not an integer sets the status, quoting the line, and emits nothing. */
  lemma NonNumericQuantity(parseDouble: string -> Option<real>)
    ensures var line := Record(["1", "ProdA", "foo", "5.0", "15/04/21 10:00", "X"]);
      MapLine(line, parseDouble) == Status(StatusMessage(line))
  {
    SampleRecords();
    SampleDates();
    SampleNumbers();
    RecordOutcome(["1", "ProdA", "foo", "5.0", "15/04/21 10:00", "X"], "15", "04", "21", " 10:00", parseDouble);
  }

  /** A sixth field left empty is dropped: Java's split discards it. */
  lemma EmptySixthField(parseDouble: string -> Option<real>)
    ensures MapLine(Record(["1", "ProdA", "10", "5.0", "04/15/21 10:00", ""]), parseDouble) == Dropped
  {
    TrailingEmptyFieldsDropped(["1", "ProdA", "10", "5.0", "04/15/21 10:00", ""], parseDouble);
  }

  /** The sample records are read back field for field. */
  lemma SampleRecords()
    ensures WellFormedRecord(["1", "ProdA", "10", "5.0", "15/04/21 10:00", "X"])
    ensures WellFormedRecord(["1", "ProdA", "10", "5.0", "04/15/21 10:00", "X"])
    ensures WellFormedRecord(["1", "ProdA", "foo", "5.0", "15/04/21 10:00", "X"])
  {
  }

  /** The sample date fields and their components. */
  lemma SampleDates()
    ensures DateFieldParts("15", "04", "21", " 10:00") && DateFieldText("15", "04", "21", " 10:00") == "15/04/21 10:00"
    ensures DateFieldParts("04", "15", "21", " 10:00") && DateFieldText("04", "15", "21", " 10:00") == "04/15/21 10:00"
  {
  }

  /** The sample quantities and their products with the sample price. */
  lemma SampleNumbers()
    ensures ParseInt("10") == Some(10) && ParseInt("foo") == None && Product(10, 5.0) == 50.0
  {
    assert DigitsValue("10") == 10;
  }

  /** The keys of the sample month codes. */
  lemma SampleKeys()
    ensures MonthYear("15", "21") + Pad("15") == "null(15)/2021\t\t"
    ensures MonthYear("04", "21") + Pad("04") == "Abril(04)/2021     \t\t"
  {
    assert "15" !in Meses && "15" !in WidePadCodes;
    assert MonthName("04") == "Abril";
    assert "04" in WidePadCodes;
    assert Pad("15") == "\t\t" && Pad("04") == "     \t\t";
  }
}
