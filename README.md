# Sales-per-month mapper, modelled in Dafny

This project models `consultas.VentasPorMesMapper`, the Hadoop mapper of a sales
report. It reads one comma-separated sales line and produces at most one pair
`(month-year key, revenue)` for the reducer, or one status message.

The mapper works like this:

- It splits the line on `,` and drops it silently unless there are more than five fields.
- It cuts field 4 at the first space and splits the first part on `/`.
  It drops the line silently unless there are exactly three date parts.
- It builds the key from the first date part (the month code) and the third (the year).
  The key is the month name from a fixed table, then `(code)/20` and the year.
  An unknown code renders as the text `null`.
- It appends a pad to the key.
  Codes `01`–`08` get five spaces and two tabs; every other code gets two tabs.
- It parses field 2 with `Integer.parseInt` and field 3 with `Double.parseDouble`.
  If either parse fails, it sets one status message quoting the line and emits nothing.
  Otherwise it emits the key with the value quantity × price.

Files and modules:

- `wrappers.dfy` (`Wrappers`): the `Option` type.
- `java_strings.dfy` (`JavaStrings`): Java's `String.split` for a one-character literal separator, and `Join`, its inverse.
  Trailing empty strings are removed as Java does: `"a,b,c,d,e,"` has five fields, `",,,"` has none, `""` has one.
- `java_integers.dfy` (`JavaIntegers`): `Integer.parseInt` as a partial function, with `Integer.toString` as its inverse.
- `ventas_por_mes_mapper.dfy` (`VentasPorMes`): the month table `Meses`, the key and pad, the status message, and `MapLine`, which is `map` itself.

The two Hadoop sinks become the result of `MapLine`, a value of type `Outcome`:

- `Emit(key, value)` is one call of `output.collect`.
- `Status(message)` is one call of `reporter.setStatus`.
- `Dropped` is neither.
- `Crash` is the `ArrayIndexOutOfBoundsException` that `map` does not catch.
  It happens when field 4 is non-empty and made only of spaces, because `" ".split(" ")` is an empty array.

`Double.parseDouble` is not modelled. It is the parameter `parseDouble: string -> Option<real>`:
`None` where Java throws `NumberFormatException`, otherwise the value read.
Every lemma holds for every such parser, except `DayFirstDate` and `MonthFirstDate`, which assume that it reads `5.0` as 5.

The code reads the first date part as the month.
A day-first date therefore does not give its month.
For the line `1,ProdA,10,5.0,15/04/21 10:00,X` the key is `"null(15)/2021\t\t"`, not an April key (lemma `DayFirstDate`).
A month-first date such as `04/15/21` gives `"Abril(04)/2021     \t\t"` (lemma `MonthFirstDate`).
The key is also built for codes missing from the table, with the text `null` in place of the name.
The model follows the code in both cases.

## Model

Source paths are relative to the repository root.

| member | source | states |
|---|---|---|
| `JavaStrings.Pieces` | src/main/java/consultas/VentasPorMesMapper.java:50 | Cutting at every separator gives one more piece than there are separators. No piece contains the separator. Joining the pieces gives the line back. |
| `JavaStrings.StripTrailingEmpty` | src/main/java/consultas/VentasPorMesMapper.java:50 | The result is the longest prefix of the pieces that does not end in an empty piece. Every piece dropped is empty. |
| `JavaStrings.JavaSplitSpec` | src/main/java/consultas/VentasPorMesMapper.java:50 | No element of `split` contains the separator. The last element is non-empty for a non-empty input. Joining the elements gives a prefix of the input, and the rest of the input is separators only. |
| `JavaStrings.JavaSplitEmpty` | src/main/java/consultas/VentasPorMesMapper.java:55 | `split` returns an empty array exactly when the input is non-empty and made of separators only. |
| `JavaStrings.JavaSplit` | src/main/java/consultas/VentasPorMesMapper.java:50-55 | A string without the separator is one element, itself. No element holds the separator. There are at most as many elements as separators plus one. |
| `JavaStrings.PiecesOfJoin` | src/main/java/consultas/VentasPorMesMapper.java:50 | Cutting a join of separator-free pieces gives the pieces back. |
| `JavaStrings.JavaSplitOfJoin` | src/main/java/consultas/VentasPorMesMapper.java:50 | `split` undoes `Join` when no piece contains the separator and the last piece is non-empty. |
| `JavaStrings.JavaSplitFirst` | src/main/java/consultas/VentasPorMesMapper.java:55 | `split(" ")[0]` is the text before the first space when that text is non-empty. |
| `JavaIntegers.ParseInt` | src/main/java/consultas/VentasPorMesMapper.java:62 | An accepted quantity is a 32-bit integer. Its text is an optional sign and at least one digit, with only digits after the first character. |
| `JavaIntegers.ParseIntToString` | src/main/java/consultas/VentasPorMesMapper.java:62 | `parseInt(toString(n))` is `n` for every 32-bit `n`. For every other integer, the spelling is rejected. |
| `JavaIntegers.ParseIntLeadingZeroAndPlus` | src/main/java/consultas/VentasPorMesMapper.java:62 | A leading `0` or `+` before the digits is accepted and does not change the value. So is a `0` right after a `-`: `-0` is 0 and `-07` is -7. |
| `JavaIntegers.ParseIntRejectsNonDigit` | src/main/java/consultas/VentasPorMesMapper.java:62 | Any character that is neither a digit nor a leading sign makes the parse fail. This includes spaces and a decimal point. |
| `VentasPorMes.MonthName` | src/main/java/consultas/VentasPorMesMapper.java:28-44 | The name is the text `null` exactly when the code is not in the table. |
| `VentasPorMes.MonthYear` | src/main/java/consultas/VentasPorMesMapper.java:58 | The key before its pad starts with the month name and ends with the year. Its length is the name, the code, the year and the five characters `(`, `)`, `/`, `2`, `0`. |
| `VentasPorMes.Pad` | src/main/java/consultas/VentasPorMesMapper.java:67-71 | The pad is a run of spaces followed by two tabs. |
| `VentasPorMes.MonthTable` | src/main/java/consultas/VentasPorMesMapper.java:28-44 | The table maps exactly `01`..`12`, to `Enero`..`Diciembre` in order. |
| `VentasPorMes.MonthNamesDistinct` | src/main/java/consultas/VentasPorMesMapper.java:32-43 | Two different codes in the table never share a month name. |
| `VentasPorMes.KeyLayout` | src/main/java/consultas/VentasPorMesMapper.java:58-71 | The pad is five spaces and two tabs for `01`–`08`, and two tabs for every other code, in the table or not. Those eight codes all lie in the table. The key ends in two tabs, and cutting off the pad gives back `name(code)/20yy`. |
| `VentasPorMes.StatusMessage` | src/main/java/consultas/VentasPorMesMapper.java:75 | The line can be read back from the status message. |
| `VentasPorMes.MapLine` | src/main/java/consultas/VentasPorMesMapper.java:47-79 | A status always quotes the line. Any outcome other than a silent drop needs more than five fields. A crash means field 4 splits on spaces into an empty array. The clause "at most one `collect` or `setStatus`" holds for every `Outcome` by the shape of the type, not by anything `map` does. |
| `VentasPorMes.Revenue` | src/main/java/consultas/VentasPorMesMapper.java:60-76 | The try block always emits or sets a status, never drops. It emits exactly when both numbers parse. A status quotes the line. An emitted key with its pad cut off is `name(code)/20yy`. |
| `VentasPorMes.Product` | src/main/java/consultas/VentasPorMesMapper.java:65 | A zero quantity or price gives zero revenue. Dividing the revenue by a non-zero price gives the quantity back. |
| `VentasPorMes.FewFieldsDropped` | src/main/java/consultas/VentasPorMesMapper.java:50-52 | A line with at most four commas is dropped, with no pair and no status. |
| `VentasPorMes.TrailingEmptyFieldsDropped` | src/main/java/consultas/VentasPorMesMapper.java:50-52 | A record is dropped silently when all its fields after the fifth are empty, whatever its length. |
| `VentasPorMes.CrashCondition` | src/main/java/consultas/VentasPorMesMapper.java:52-55 | `map` throws exactly when there are more than five fields and field 4 is non-empty and made only of spaces. |
| `VentasPorMes.ShortDateDropped` | src/main/java/consultas/VentasPorMesMapper.java:54-56 | A date with fewer than two `/` before its first space is dropped, with no status. |
| `VentasPorMes.DateParts` | src/main/java/consultas/VentasPorMesMapper.java:54-55 | A field `code/middle/yy` followed by nothing or by a space and more text is read as the parts `[code, middle, yy]`. |
| `VentasPorMes.RecordOutcome` | src/main/java/consultas/VentasPorMesMapper.java:50-75 | Take a record of more than five comma-free fields, the last non-empty, with such a date. If both numbers parse, it emits key `name(code)/20yy` plus the pad, with value quantity × price. Otherwise it sets exactly the status quoting the line. |
| `VentasPorMes.MiddleComponentIgnored` | src/main/java/consultas/VentasPorMesMapper.java:58 | Two records that differ only in the middle date part have the same kind of outcome. When a pair is emitted, the key and value are the same. |
| `VentasPorMes.StatusOnlyForNumbers` | src/main/java/consultas/VentasPorMesMapper.java:52-75 | A status is set exactly when the line has more than five fields, its date has three parts, and the quantity or the price does not parse. The status is the fixed message around the line. |
| `VentasPorMes.EmitOnlyForNumbers` | src/main/java/consultas/VentasPorMesMapper.java:52-71 | A pair is emitted exactly when the line has more than five fields, its date has three parts, and both numbers parse. The key is built from date parts 0 and 2 plus the pad of part 0. The value is quantity × price. |
| `VentasPorMes.DayFirstDate` | src/main/java/consultas/VentasPorMesMapper.java:55-70 | `1,ProdA,10,5.0,15/04/21 10:00,X` emits `"null(15)/2021\t\t"` with 50 when the price parses as 5. |
| `VentasPorMes.MonthFirstDate` | src/main/java/consultas/VentasPorMesMapper.java:55-68 | `1,ProdA,10,5.0,04/15/21 10:00,X` emits `"Abril(04)/2021     \t\t"` with 50 when the price parses as 5. |
| `VentasPorMes.NonNumericQuantity` | src/main/java/consultas/VentasPorMesMapper.java:62-75 | `1,ProdA,foo,5.0,15/04/21 10:00,X` sets the status quoting the line and emits nothing. |
| `VentasPorMes.EmptySixthField` | src/main/java/consultas/VentasPorMesMapper.java:50-52 | `1,ProdA,10,5.0,04/15/21 10:00,` is dropped silently: Java's split discards the empty sixth field. |

## Left out

- Hadoop plumbing is not modelled: `MapReduceBase`, `Mapper`, the `Text`/`LongWritable`/`DoubleWritable` wrappers and the unused input key. The sinks are the returned `Outcome`.
- Running many mappers in parallel is not modelled. Neither is the timing of the static initializer. The month table is read-only after line 44 and is a constant here.
- `Double.parseDouble` is a parameter, as described above. Its grammar is not modelled: whitespace trimming, hexadecimal, `NaN`/`Infinity`, the `d`/`f` suffixes, rounding. `NaN` and the infinities have no `real` counterpart.
- VentasPorMes.Product: the revenue is the exact real product. It does not model the rounding of the `int * double` multiplication to a `double`.
- JavaIntegers.ParseInt: only ASCII `0`–`9` count as digits. Java's `Character.digit` also accepts other Unicode decimal digits, such as Arabic-Indic or full-width digits. The model rejects those lines where Java would accept them.
- How Hadoop decodes `Text` from UTF-8 is not modelled. Neither is the difference between Java's UTF-16 code units and Dafny's characters. The three separators are ASCII, so splitting does not depend on either.
- What Hadoop does after the `Crash` outcome (a failed task, retries) is not modelled.
- The reducer that sums the values per key is not modelled.
- The sample-line lemmas state each line as `Record(fields)`, the fields joined by commas, and not as one string literal.
