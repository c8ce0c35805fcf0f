# SLiM / Eidos core, modelled in Dafny

This project models part of SLiM, the forward population-genetic simulator, and
part of Eidos, its scripting language. It covers:

- **Eidos values and built-in functions** (`eidos/eidos_functions.cpp`). This is
  the concatenation engine behind `c()` (`ConcatenateEidosValues`) and the
  builtins `abs`, `sum`, `product`, `max`, `min`, `range`, `seq`, `rep`,
  `repEach`, `match`, `unique`, `which`, `whichMax`, `whichMin`, `identical`,
  `ifelse`, `substr` and `strsplit`. It also covers the built-in function map
  and the dispatch in `ExecuteFunctionCall` and `ExecuteMethodCall`.
- **The earlier SLiMScript interpreter** (`core/script_functions.cpp`), where its
  builtins differ from the Eidos ones. These are concatenation with NULL
  allowed, `rep`/`repEach` without count checks, `sum`/`product` that raise on
  integer overflow, `all`, `any`, `unique`, and the class/instance flag checks
  of its dispatcher.
- **Individual** (`core/individual.h`, `core/individual.cpp`). This covers:
  - pedigree tracking (`TrackParentage_*`, `RevokeParentage_*`);
  - pedigree relatedness, including the X and Y chromosome corrections;
  - the scalar and bulk ("accelerated") getters and setters of `tag`, `tagF`,
    `fitnessScaling`, `x`, `y` and `z`;
  - `setSpatialPosition()`;
  - the `uniqueMutations` merge of an individual's two genomes.
- **LogFile** (`core/log_file.cpp`). This covers:
  - the file configuration with its `.gz` suffix;
  - automatic logging every `logInterval` generations, and explicit flushing
    every `flushInterval` rows;
  - the header line, written once, after which no generator can be added;
  - the row generators and the Dictionary of the last row;
  - `flush()`, `logRow()`, `AllKeys` and the `precision` property.

Values are a datatype: NULL (visible or invisible), or a vector of logical,
integer, float, string or object elements. Integers are unbounded, and the
int64 and int32 ranges, casts and wrap-around are written out where the code
depends on them. A double is an exact real or NaN. The code that works by
updating state is imperative Dafny:
- `Individual`, `Genome`, the process-wide pedigree counter and `LogFile` are
  classes whose methods change their fields;
- the loops of the builtins are methods whose loop invariants tie them to
  specification functions.

What is proved about those functions is in the lemmas below.

Where the documentation and the code disagree, the model follows the code,
except at the places listed under "## Findings". There the main member states
the evidently intended behaviour, and a member whose name ends in `AsWritten`
exhibits what the code does.

For `c()` the model follows the code. `c()` of the Eidos engine calls `ConcatenateEidosValues` with NULL not allowed
(`eidos/eidos_functions.cpp:1464-1468`). So `c(NULL, NULL)` raises an error
instead of returning NULL, as the description of the language says it should.
Only the older SLiMScript concatenation returns NULL for NULL arguments
(`ScriptFunctions.ScriptConcatOfNulls`).

## Model

| member | source | states |
|---|---|---|
| EidosValue.Promote | eidos/eidos_functions.cpp:297-356 | An element taken through the accessor of a type at least as high as its own has that type, and an element already of that type is unchanged |
| EidosValue.ElemLessOrder | eidos/eidos_functions.cpp:1142-1229 | The operator< used by max/min/whichMax/whichMin is a strict total order on elements of one comparable type (irreflexive, transitive, total, asymmetric) |
| EidosConcat.ConcatenateEidosValues | eidos/eidos_functions.cpp:239-377 | Returns exactly Concatenate: the first pass, then the copy of every argument's elements through the accessor of the highest type |
| EidosConcat.FirstPass | eidos/eidos_functions.cpp:249-286 | The first loop computes the highest type, the object/non-object/invisible flags and the element class, raising at the first offending argument |
| EidosConcat.ScanSucceeds | eidos/eidos_functions.cpp:249-286 | The first pass raises exactly when a NULL is not allowed or two non-empty object arguments have different classes; the class it keeps is that of every non-empty object argument |
| EidosConcat.ScanHighest | eidos/eidos_functions.cpp:257-258 | The highest type bounds every argument's type and is the type of some argument (or NULL) |
| EidosConcat.ScanKinds | eidos/eidos_functions.cpp:260-285 | has_object_type iff some argument is an object value, has_nonobject_type iff some is not, all_invisible iff every argument is an invisible NULL |
| EidosConcat.ScanFlags | eidos/eidos_functions.cpp:249-286 | The highest type, the object and non-object flags and the all-invisible flag of a successful first pass each mean what their names say, argument by argument |
| EidosConcat.ScanErrorSticks | eidos/eidos_functions.cpp:249-286 | An error raised at some argument is the outcome of the whole first pass: later arguments are never examined |
| EidosConcat.CopyElements | eidos/eidos_functions.cpp:357-370 | The object branch copies every element of every argument, in argument order |
| EidosConcat.CopyPromoted | eidos/eidos_functions.cpp:297-356 | The logical, integer, float and string branches copy every element, in order, converted to the result type |
| EidosConcat.FlattenAt | eidos/eidos_functions.cpp:301-307 | Element j of argument i lands at the offset of argument i plus j |
| EidosConcat.FlattenLength | eidos/eidos_functions.cpp:297-370 | The copy of all arguments holds as many elements as they do together |
| EidosConcat.ConcatRaises | eidos/eidos_functions.cpp:249-289 | Concatenation raises iff a NULL is not allowed, two object classes differ, or object and non-object values are mixed |
| EidosConcat.ConcatType | eidos/eidos_functions.cpp:257-258 | The result type is the highest argument type: it bounds every argument's type and is one of them |
| EidosConcat.ConcatCount | eidos/eidos_functions.cpp:297-370 | The result holds as many elements as all the arguments together |
| EidosConcat.ConcatOrder | eidos/eidos_functions.cpp:297-370 | Element j of argument i is at position (elements of earlier arguments) + j, unchanged for objects and promoted otherwise |
| EidosConcat.ConcatOfNulls | eidos/eidos_functions.cpp:254-255 | All-NULL arguments give NULL, invisible iff all were, when NULL is allowed, and raise otherwise (no arguments give an invisible NULL) |
| EidosConcat.ConcatNullOnlyFromNulls | eidos/eidos_functions.cpp:292-293 | The result is NULL iff every argument is NULL |
| EidosConcat.ConcatObjects | eidos/eidos_functions.cpp:357-370 | Object arguments whose non-empty members share one class concatenate to all their elements |
| EidosConcat.ConcatWellFormed | eidos/eidos_functions.cpp:297-370 | The result is a well-formed value: every element has the result type and object elements share one class |
| EidosArith.AbsElemIdempotent | eidos/eidos_functions.cpp:426-489 | The magnitude is never negative, is unchanged by a second abs, and leaves a non-negative element alone |
| EidosArith.AbsValue | eidos/eidos_functions.cpp:426-489 | abs() raises iff some element is the most negative int64; otherwise every element is replaced by its magnitude, with type and count kept |
| EidosArith.SumIntegers | eidos/eidos_functions.cpp:928-972 | The integer sum is an integer iff no partial sum overflows int64, and is the exact sum either way |
| EidosArith.ProductIntegers | eidos/eidos_functions.cpp:852-896 | The integer product is an integer iff no partial product overflows int64, and is the exact product either way |
| EidosArith.SumLogical | eidos/eidos_functions.cpp:991-1001 | The sum of a logical vector is its number of T elements |
| EidosArith.SumOverflowIsPerPrefix | eidos/eidos_functions.cpp:946-963 | An example, on [INT64_MAX, 1, -1]: a sum whose exact value fits in int64 can still be a float, because an intermediate partial sum overflowed; the general statement is SumIntegers with PrefixSumsFitSnoc |
| EidosArith.PrefixSumsFitSnoc | eidos/eidos_functions.cpp:946-963 | Adding one element keeps every partial sum in int64 iff the earlier ones were and the new total is |
| EidosExtrema.Max | eidos/eidos_functions.cpp:1142-1229 | max(): NULL for an empty argument, else the running maximum (replaced only by a strictly greater element) |
| EidosExtrema.Min | eidos/eidos_functions.cpp:1259-1346 | min(): NULL for an empty argument, else the running minimum |
| EidosExtrema.Range | eidos/eidos_functions.cpp:1352-1415 | range(): NULL for an empty argument, else the (min, max) pair of one scan |
| EidosExtrema.WhichMax | eidos/eidos_functions.cpp:3122-3204 | whichMax(): NULL for an empty argument, else the index kept by the strict-greater scan |
| EidosExtrema.WhichMin | eidos/eidos_functions.cpp:3210-3292 | whichMin(): NULL for an empty argument, else the index kept by the strict-less scan |
| EidosExtrema.MaxFoldIsMaximum | eidos/eidos_functions.cpp:1142-1229 | On totally ordered elements max() returns one of the elements and no element exceeds it |
| EidosExtrema.MinFoldIsMinimum | eidos/eidos_functions.cpp:1259-1346 | On totally ordered elements min() returns one of the elements and it exceeds no element |
| EidosExtrema.WhichMaxAgrees | eidos/eidos_functions.cpp:3122-3204 | For any elements, whichMax() is a valid index of the element max() returns |
| EidosExtrema.WhichMinAgrees | eidos/eidos_functions.cpp:3210-3292 | For any elements, whichMin() is a valid index of the element min() returns |
| EidosExtrema.WhichMaxIsFirst | eidos/eidos_functions.cpp:3122-3204 | On totally ordered elements whichMax() is the first index of a maximum: nothing exceeds it and everything before it is strictly smaller |
| EidosExtrema.WhichMinIsFirst | eidos/eidos_functions.cpp:3210-3292 | On totally ordered elements whichMin() is the first index of a minimum |
| EidosExtrema.RangeIsMinMax | eidos/eidos_functions.cpp:1352-1415 | On totally ordered elements range() equals (min(), max()), even though the scan skips the minimum test after a new maximum |
| EidosSearch.FirstIndex | eidos/eidos_functions.cpp:2410-2636 | The first position of an equal table element, or -1 exactly when no table element is equal |
| EidosSearch.ScanTable | eidos/eidos_functions.cpp:2410-2636 | The table scan of match() finds FirstIndex |
| EidosSearch.Match | eidos/eidos_functions.cpp:2410-2636 | match() raises iff x and table differ in type; otherwise, in all four singleton/vector branches, element i is the first position of x[i] in table, or -1 |
| EidosSearch.MatchAgainstOne | eidos/eidos_functions.cpp:2410-2636 | The vector/singleton branch gives each element's FirstIndex in the one-element table |
| EidosSearch.MatchAgainstTable | eidos/eidos_functions.cpp:2410-2636 | The vector/vector branch gives each element's FirstIndex in the table |
| EidosSearch.MatchFindsMembers | eidos/eidos_functions.cpp:2410-2636 | Every non-NAN table element is found at or before its own position, at an equal element |
| EidosSearch.UniqueValue | eidos/eidos_functions.cpp:2960-3098 | unique() keeps the type and returns the first occurrence of every element, in order, through the empty, singleton, logical and scan branches alike |
| EidosSearch.UniqueScan | eidos/eidos_functions.cpp:2960-3098 | The scan keeps an element exactly when no earlier element equals it |
| EidosSearch.UniqueSameElements | eidos/eidos_functions.cpp:2960-3098 | unique() keeps exactly the elements of its argument and is never longer |
| EidosSearch.UniqueDistinct | eidos/eidos_functions.cpp:2960-3098 | unique() leaves no two equal elements |
| EidosSearch.UniqueOfDistinct | eidos/eidos_functions.cpp:2960-3098 | A vector without repeats is its own unique() |
| EidosSearch.UniqueIdempotent | eidos/eidos_functions.cpp:2960-3098 | unique(unique(x)) == unique(x) |
| EidosSearch.UniqueOfLogical | eidos/eidos_functions.cpp:2960-3098 | The logical shortcut (first element, then the other truth value if it occurs) agrees with the general scan |
| EidosSearch.Which | eidos/eidos_functions.cpp:3104-3116 | which() returns the positions of the T elements in increasing order, and every T position is among them |
| EidosStrings.Wrap32 | eidos/eidos_functions.cpp:2867-2868 | The (int) cast keeps the value modulo 2^32 within the int32 range, and leaves int32 values alone |
| EidosStrings.SubstrValue | eidos/eidos_functions.cpp:2839-2954 | substr() raises iff first or last has neither one value nor one per string, or is empty; else element i is the documented substring of x[i] |
| EidosStrings.SubstrPositions | eidos/eidos_functions.cpp:2870-2876 | The substring holds, in order, the characters from max(first, 0) on; it covers exactly the positions in [first, last], so it ends at min(last, length - 1) and its length is fixed; it is empty iff no position lies in [first, last] |
| EidosStrings.SubstrSplitJoin | eidos/eidos_functions.cpp:2839-2954 | The substrings before and from position k join back to the string |
| EidosStrings.SubstrAsWrittenAgrees | eidos/eidos_functions.cpp:2867-2876 | Where the casts lose nothing and last is not negative, the code computes the documented substring |
| EidosStrings.SubstrNegativeLastAsWritten | eidos/eidos_functions.cpp:2870-2876 | substr("abc", 0, -1) returns "abc" as written, where the documented result is "" |
| EidosStrings.SubstrTruncatedFirstAsWritten | eidos/eidos_functions.cpp:2867-2876 | substr("abc", 2^32) returns "abc" as written, where the documented result is "" |
| EidosStrings.FindFrom | eidos/eidos_functions.cpp:2818 | std::string::find: the first occurrence at or after start, or none when there is none |
| EidosStrings.StrSplit | eidos/eidos_functions.cpp:2806-2833 | strsplit() (sep defaulting to " ") returns the pieces between the occurrences of the separator, and joining them with it gives the string back |
| EidosStrings.SplitLoop | eidos/eidos_functions.cpp:2816-2830 | The find/substr loop yields exactly the pieces between occurrences of a non-empty separator |
| EidosStrings.SplitJoin | eidos/eidos_functions.cpp:2806-2833 | Joining the pieces of a split with its separator gives the string back |
| EidosStrings.SplitFromJoin | eidos/eidos_functions.cpp:2816-2830 | The pieces found from a start position join back to the rest of the string |
| EidosStrings.SplitCharacters | eidos/eidos_functions.cpp:2806-2833 | Splitting by the empty separator gives the string's characters, one per piece, and a single empty piece for the empty string |
| EidosStrings.CharactersJoin | eidos/eidos_functions.cpp:2806-2833 | The characters joined with nothing between them give the string back |
| EidosStrings.SplitFromPiecesFree | eidos/eidos_functions.cpp:2816-2830 | No piece of a split by a non-empty separator contains the separator |
| EidosStrings.StrSplitEmptySepAsWritten | eidos/eidos_functions.cpp:2818-2827 | With an empty separator the loop as written never advances: find() matches at the start every time |
| EidosVectors.SeqInt | eidos/eidos_functions.cpp:2110-2132 | Integer seq() raises iff by is 0 or has the wrong sign; else the progression from `from` by `by`, within [from, to], ending just before the first value past `to` |
| EidosVectors.CountUp | eidos/eidos_functions.cpp:2126-2128 | The loop for a positive step yields the progression up to `to` |
| EidosVectors.CountDown | eidos/eidos_functions.cpp:2129-2131 | The loop for a negative step yields the progression down to `to` |
| EidosVectors.SeqOverflowAsWritten | eidos/eidos_functions.cpp:2127-2128 | Near INT64_MAX the int64 step wraps to a value below `from` that still passes the `<= to` test |
| EidosVectors.Rep | eidos/eidos_functions.cpp:1611-1630 | rep() raises iff count is negative; else count copies of x, of x's type, with element k equal to x[k mod n] |
| EidosVectors.RepeatAt | eidos/eidos_functions.cpp:1625-1627 | Element k of c copies is element k mod n of the original |
| EidosVectors.RepeatLength | eidos/eidos_functions.cpp:1625-1627 | c copies of n elements hold c * n elements |
| EidosVectors.RepEach | eidos/eidos_functions.cpp:1636-1676 | repEach(): one count repeats every element that many times, one per element repeats each its own number of times, a negative count raises, and any other size raises |
| EidosVectors.RepEachLength | eidos/eidos_functions.cpp:1636-1676 | The repEach() result has as many elements as the counts add up to |
| EidosVectors.RepEachUniformAt | eidos/eidos_functions.cpp:1646-1655 | With one count c for all, element k of the result is x[k / c] |
| EidosVectors.RepEachUniformLength | eidos/eidos_functions.cpp:1646-1655 | With one count c for all, the result holds n * c elements |
| EidosVectors.CountsNonNegative | eidos/eidos_functions.cpp:1657-1667 | The count check succeeds iff no count is negative |
| EidosVectors.RepeatEach | eidos/eidos_functions.cpp:1657-1667 | The copy loop repeats es[i] cs[i] times, for each i in turn |
| EidosVectors.IdenticalValues | eidos/eidos_functions.cpp:2255-2369 | identical() is true iff the types and counts agree and every pair of elements is equal (NAN never is) |
| EidosVectors.IdenticalIsEquality | eidos/eidos_functions.cpp:2255-2369 | For a vector without NAN, identical() is plain equality of values |
| EidosVectors.IdenticalSymmetric | eidos/eidos_functions.cpp:2255-2369 | identical() is symmetric |
| EidosVectors.IfElse | eidos/eidos_functions.cpp:2375-2404 | ifelse() raises on a length mismatch, then on a type mismatch; else it has the value type and takes element i from trueValues iff test[i] |
| EidosDispatch.BuildFunctionMap | eidos/eidos_functions.cpp:216-232 | The map's names are exactly the signatures' names, and each name maps to its first signature, because insert keeps an existing entry |
| EidosDispatch.RegisterSignature | eidos/eidos_functions.cpp:227-228 | One insert adds the signature's name and keeps every first-of-name entry |
| EidosDispatch.NamesOfNamed | eidos/eidos_functions.cpp:216-232 | A name is among the names exactly when some signature has it |
| EidosDispatch.ExecuteFunctionCall | eidos/eidos_functions.cpp:379-411 | An uncached unknown name raises; otherwise the arguments are checked, kNoFunction raises, and the result is the function's: an error of the function is passed on unchanged, and a value must pass the return check |
| EidosDispatch.ExecuteMethodCall | eidos/eidos_functions.cpp:4049-4072 | A method the class does not define raises; otherwise the arguments are checked, the class or instance implementation runs per the signature's flag; its error is passed on unchanged, and its value must pass the return check |
| ScriptFunctions.ConcatenateScriptValues | core/script_functions.cpp:218-329 | The old concatenation is the Eidos one with NULL allowed |
| ScriptFunctions.ScriptConcatOfNulls | core/script_functions.cpp:218-329 | All-NULL arguments give NULL in the old engine (invisible iff all were) and raise in the Eidos engine |
| ScriptFunctions.ExecuteRep | core/script_functions.cpp:331-352 | The old rep() keeps x's type and repeats x count times for a single count above 0, and gives nothing otherwise |
| ScriptFunctions.ExecuteRepEach | core/script_functions.cpp:354-388 | The old repEach() raises iff the count size is neither 1 nor x's size; a negative count repeats nothing |
| ScriptFunctions.ClampAll | core/script_functions.cpp:354-388 | A negative count is taken as 0, element by element |
| ScriptFunctions.SumIntegersChecked | core/script_functions.cpp:688-708 | The old integer sum raises iff some partial sum would leave int64, and is the exact sum otherwise |
| ScriptFunctions.ProductZeroAsWritten | core/script_functions.cpp:659-669 | product(c(5, 0)) as written divides by the factor 0, although the product 0 fits |
| ScriptFunctions.ProductIntegersChecked | core/script_functions.cpp:651-672 | The old integer product raises iff some partial product leaves int64, and is the exact product otherwise |
| ScriptFunctions.All | core/script_functions.cpp:1375-1384 | all() is T iff every element is T (also for no elements) |
| ScriptFunctions.Any | core/script_functions.cpp:1387-1396 | any() is T iff some element is T (F for no elements) |
| ScriptFunctions.ExecuteUnique | core/script_functions.cpp:1613-1718 | The old unique() keeps the type and the first occurrence of every element, logical values included |
| ScriptFunctions.ScriptExecuteFunctionCall | core/script_functions.cpp:450-467 | An unknown name raises, a signature flagged as a method raises an internal error, the arguments are checked, and the function's error is passed on unchanged while its value must pass the return check |
| ScriptFunctions.ScriptExecuteMethodCall | core/script_functions.cpp:2063-2089 | A method signature must carry exactly one of the two flags, else an internal error; then the arguments are checked and the class or instance implementation runs; its error is passed on unchanged, and its value must pass the return check |
| Pedigree.Relatedness | core/individual.cpp:99-128 | The relatedness lies in [0, 1]; it is 0 when either id is unknown and 1 for the same individual |
| Pedigree.UnrelatedPedigrees | core/individual.cpp:88-128 | Individuals whose known pedigrees share no id have relatedness 0 |
| Pedigree.ParentContributesHalf | core/individual.cpp:99-128 | A first parent that shares nothing with the child's other line has relatedness 0.5 to the child |
| Pedigree.ChildOfParentHalf | core/individual.cpp:99-128 | The same 0.5, seen from the child |
| Pedigree.GrandparentContributesQuarter | core/individual.cpp:99-128 | A grandparent that occurs once in the pedigree has relatedness 0.25 |
| Pedigree.SexAwareRelatedness | core/individual.cpp:130-204 | The sex-chromosome-aware relatedness lies in [0, 1], and is 0 for an unknown id except a female compared with herself on the Y |
| Pedigree.YFemaleRelatedOnlyToSelf | core/individual.cpp:130-204 | On the Y, a female has relatedness 1 to herself and 0 to anybody else |
| Pedigree.YFatherAndSon | core/individual.cpp:130-204 | On the Y, a father and his son have relatedness 1 |
| Pedigree.XFatherAndSon | core/individual.cpp:130-204 | On the X, a father is unrelated to his son unless he occurs on the son's maternal side |
| Pedigree.XFatherAndDaughter | core/individual.cpp:130-204 | On the X, a father and his daughter have relatedness 0.5 |
| SlimIndividual.Individual.constructor | core/individual.cpp:47-86 | No known parents, tag and tagF unset, fitnessScaling 1, genome ids 2*id and 2*id+1 for a known id, and both genome tags unset |
| SlimIndividual.Individual.TrackParentageBiparental | core/individual.h:128-145 | The next pedigree id, the genome ids derived from it, the parent and grandparent ids, each parent's reproductive output up by one (two for a selfed parent), and the id larger than every id issued before |
| SlimIndividual.Individual.RevokeParentageBiparental | core/individual.h:147-151 | Takes back the reproductive output tracking added |
| SlimIndividual.Individual.TrackParentageUniparental | core/individual.h:153-169 | As biparental with the one parent in both roles; its reproductive output goes up by two |
| SlimIndividual.Individual.RevokeParentageUniparental | core/individual.h:171-174 | Takes back the two offspring counted for the parent |
| SlimIndividual.Individual.TrackParentageParentless | core/individual.h:178-184 | Only the pedigree id and the genome ids change; the id is fresh |
| SlimIndividual.Individual.GetTag | core/individual.cpp:579-587 | Reading tag raises iff it was never set, else gives it |
| SlimIndividual.Individual.SetTag | core/individual.cpp:864-871 | Stores the tag and records that a tag was set |
| SlimIndividual.Individual.GetTagF | core/individual.cpp:588-596 | Reading tagF raises iff it was never set, else gives it |
| SlimIndividual.Individual.SetTagF | core/individual.cpp:872-877 | Stores tagF and records that a tag was set |
| SlimIndividual.Individual.SetFitnessScaling | core/individual.cpp:878-887 | Stores the value and records it first, then raises iff it is negative or NAN |
| SlimIndividual.Individual.SetCoordinate | core/individual.cpp:888-902 | Setting x, y or z changes that coordinate only |
| SlimIndividual.Individual.SetPoint | core/individual.cpp:1653-1673 | The first len(point) coordinates take the point's values and the rest stay |
| SlimIndividual.BroadcastPoint | core/individual.cpp:1674-1719 | One point is written to every target; coordinates beyond the point stay |
| SlimIndividual.Individual.Relatedness | core/individual.cpp:1222-1271 | With pedigrees, each individual's sex-aware relatedness to the receiver; without, 1 for the receiver and 0 otherwise; always in [0, 1] |
| SlimIndividual.GenomeTagsAfterConstructionAsWritten | core/individual.cpp:77-78 | As written, only the first genome's tag is known to be unset after construction |
| SlimIndividual.SecondGenomeTagSurvivesAsWritten | core/individual.cpp:77-78 | A second genome arriving with tag 7 keeps it through the constructor as written |
| SlimIndividual.GetTags | core/individual.cpp:665-681 | The bulk tag getter raises iff some target's tag is unset, else gives every tag in order |
| SlimIndividual.GetTagFs | core/individual.cpp:719-735 | The bulk tagF getter raises iff some target's tagF is unset, else gives every tagF in order |
| SlimIndividual.GetFitnessScalings | core/individual.cpp:751-763 | The bulk getter gives every target's fitnessScaling, in order |
| SlimIndividual.GetCoordinates | core/individual.cpp:765-805 | The bulk x/y/z getters give that coordinate of every target, in order |
| SlimIndividual.LastOccurrence | core/individual.cpp:919-938 | The last position of a target that is listed several times, whose write is the one that stays |
| SlimIndividual.SetTags | core/individual.cpp:919-938 | A singleton source goes to every target, else source[i] to target i, the last write winning; the flag is set |
| SlimIndividual.SetTagFs | core/individual.cpp:940-959 | As SetTags, for tagF |
| SlimIndividual.FirstInvalid | core/individual.cpp:961-989 | The position of the first negative or NAN value, or the end |
| SlimIndividual.SetFitnessScalings | core/individual.cpp:961-989 | A singleton is checked once and then broadcast; otherwise values are stored in order up to the first invalid one, which raises; untouched targets keep their values |
| SlimIndividual.AssignFitnessScalings | core/individual.cpp:975-987 | The element-wise loop stores source[k] into target k up to the first invalid value, and raises iff there is one |
| SlimIndividual.StoreUntilInvalid | core/individual.cpp:975-987 | The store loop stops at the first invalid value, the last write to a target listed twice winning and untouched targets keeping their values |
| SlimIndividual.SetCoordinates | core/individual.cpp:991-1043 | The bulk x/y/z setters write a singleton to every target, else source[i] to target i; the other coordinates never change |
| SlimIndividual.SetSpatialPosition | core/individual.cpp:1633-1769 | Raises for a non-spatial model, a bad dimensionality, too few coordinates or a count neither one point nor one per target; else writes the point(s); coordinates beyond the dimensionality, and everything after an error, stay |
| SlimIndividual.AssignPoints | core/individual.cpp:1721-1762 | Point k of the position vector is written to target k |
| UniqueMutations.BlockLen | core/individual.cpp:487-499 | The number of leading mutations at one position: all of them are at it and the next is not |
| UniqueMutations.MergeElements | core/individual.cpp:441-539 | The merge of two runs holds exactly the mutations of both |
| UniqueMutations.MergeSorted | core/individual.cpp:458-538 | Merging two position-sorted runs gives a position-sorted run |
| UniqueMutations.MergeDistinct | core/individual.cpp:480-529 | Merging two runs without repeats gives a run without repeats: a mutation both genomes carry is listed once |
| UniqueMutations.WithoutElements | core/individual.cpp:504-514 | The second genome's block keeps exactly its mutations that the first genome's block lacks |
| UniqueMutations.InBlock | core/individual.cpp:508-510 | The duplicate check finds a mutation iff it is in the first genome's block |
| UniqueMutations.MergeBlock | core/individual.cpp:480-529 | At a shared position, the first genome's block, then the second's without duplicates, and both indices moved past their blocks |
| UniqueMutations.MergeRuns | core/individual.cpp:441-539 | The loop over one pair of runs computes Merge |
| UniqueMutations.MergeStep | core/individual.cpp:458-531 | One pass of the do-loop emits a prefix of the merge and advances at least one index |
| UniqueMutations.MergeTail | core/individual.cpp:535-538 | Once one run is used up, the merge is the rest of the other run |
| UniqueMutations.MergedRunsElements | core/individual.cpp:441-539 | The merged runs hold exactly the mutations of the visited runs of either genome |
| UniqueMutations.CarriesRuns | core/individual.cpp:439-447 | A genome carries a mutation iff it is in one of the runs the loop visits |
| UniqueMutations.UniqueMutationsOf | core/individual.cpp:425-541 | uniqueMutations is the run-by-run merge; it holds exactly the mutations either genome carries, each once, sorted by position |
| UniqueMutations.MergedRunsOrdered | core/individual.cpp:441-539 | Under the run layout (run k covers positions [k * L, (k + 1) * L), sorted, without repeats), the merges of the first n pairs of runs are sorted by position, hold each mutation once, and lie below n * L |
| UniqueMutations.MergedRunsCarried | core/individual.cpp:425-541 | The merges of all the runs the loop visits, including the no-mutation case, hold exactly the mutations either genome carries |
| UniqueMutations.AppendOrdered | core/individual.cpp:441-539 | The merge of a later run, appended after the earlier ones, keeps the whole result sorted and free of repeats |
| UniqueMutations.MergeWithin | core/individual.cpp:458-538 | The merge of two runs stays within the position range of the runs |
| UniqueMutations.ZeroRunsMerged | core/individual.cpp:433-434 | With no mutations in either genome, nothing is merged |
| SlimLogFile.ColumnCount | core/log_file.cpp:365-439 | A table of n generators has between n and 2n columns |
| SlimLogFile.ColumnCountAppend | core/log_file.cpp:365-439 | Adding a generator adds its width to the column count |
| SlimLogFile.CompressedPath | core/log_file.cpp:50-54 | With compression the path ends in ".gz", gaining it only when missing; without, it is unchanged |
| SlimLogFile.CompressedPathIdempotent | core/log_file.cpp:52-54 | Correcting a path twice adds nothing more |
| SlimLogFile.Rendered | core/log_file.cpp:290-310 | Each cell is logged as its rendering, NULL as NA |
| SlimLogFile.EntriesKeys | core/log_file.cpp:411-436 | The dictionary's keys are exactly the names of the columns with a non-NULL value |
| SlimLogFile.EntriesLastWins | core/log_file.cpp:411-436 | A name's value is that of its last column with a value |
| SlimLogFile.LogFile.constructor | core/log_file.cpp:40-84 | No generators, no header yet, no automatic logging, default flushing, precision 6, the ".gz"-corrected path |
| SlimLogFile.LogFile.ConfigureFile | core/log_file.cpp:48-84 | The path gains ".gz" when compressing; compression and separator are replaced; the table is kept |
| SlimLogFile.LogFile.SetLogInterval | core/log_file.cpp:86-94 | Enabling with an interval below 1 raises and changes nothing; otherwise the interval (0 when disabled) and the current generation as start are stored |
| SlimLogFile.LogFile.ExecuteSetLogInterval | core/log_file.cpp:830-852 | NULL disables automatic logging; an integer enables it with that interval; an integer below 1 raises IntervalInvalid before anything is assigned, so the state is unchanged |
| SlimLogFile.LogFile.SetFlushInterval | core/log_file.cpp:96-103 | Explicit flushing with an interval below 1 raises and changes nothing; otherwise both are stored |
| SlimLogFile.LogFile.HeaderLine | core/log_file.cpp:322-346 | The header is the column names joined by the separator |
| SlimLogFile.LogFile.GenerateRow | core/log_file.cpp:357-442 | The row is the rendered cells joined by the separator, and the dictionary binds each column name to its non-NULL value |
| SlimLogFile.LogFile.GeneratorCells | core/log_file.cpp:365-439 | One generator adds its one or two cells to the row text and the dictionary |
| SlimLogFile.LogFile.EmitCell | core/log_file.cpp:421-436 | Emitting one cell extends the row text by one rendered cell and the dictionary by that column's value |
| SlimLogFile.LogFile.AppendNewRow | core/log_file.cpp:312-470 | The header is written before the first row only, which locks the table; the row is written; the dictionary is rebuilt; explicit flushing counts the row and forces a flush and a reset at the interval |
| SlimLogFile.LogFile.CountRow | core/log_file.cpp:452-467 | With explicit flushing the row count stays below the interval, and reaching it forces a flush; otherwise the default flush applies |
| SlimLogFile.LogFile.GenerationEndCallout | core/log_file.cpp:472-481 | A row is appended exactly when automatic logging is on and a whole number of intervals has passed since its start; the appended row keeps the earlier lines, is preceded by the header when it is the first, rebuilds the dictionary and counts toward the flush interval as in AppendNewRow; otherwise nothing changes |
| SlimLogFile.LogFile.LogRow | core/log_file.cpp:821-827 | logRow() appends a row whatever the interval: the earlier lines are kept, the header goes before the first row, and the row is counted toward the flush interval, forcing a flush and a reset when it is reached |
| SlimLogFile.LogFile.Flush | core/log_file.cpp:811-818 | flush() leaves no row unflushed |
| SlimLogFile.LogFile.AllKeys | core/log_file.cpp:483-497 | No keys before the header; then the column names in order, which include every dictionary key |
| SlimLogFile.LogFile.SetPrecision | core/log_file.cpp:545-555 | A precision outside [1, 22] raises and leaves the old one; otherwise it is stored |
| SlimLogFile.LogFile.AddGenerator | core/log_file.cpp:598-601 | Adding a generator raises iff the header was logged, leaving the table as it was; otherwise it appends the generator and its column names |
| SlimLogFile.LogFile.AddGeneration | core/log_file.cpp:647-658 | Raises when locked; else one "generation" column |
| SlimLogFile.LogFile.AddGenerationStage | core/log_file.cpp:661-671 | Raises when locked; else one "gen_stage" column |
| SlimLogFile.LogFile.AddPopulationSexRatio | core/log_file.cpp:717-727 | Raises when locked; else one "sex_ratio" column |
| SlimLogFile.LogFile.AddPopulationSize | core/log_file.cpp:730-740 | Raises when locked; else one "num_individuals" column |
| SlimLogFile.LogFile.AddSubpopulationSexRatio | core/log_file.cpp:743-774 | Raises when locked; else one "p<id>_sex_ratio" column, whether or not the subpopulation exists |
| SlimLogFile.LogFile.AddSubpopulationSize | core/log_file.cpp:777-808 | Raises when locked; else one "p<id>_num_individuals" column |
| SlimLogFile.LogFile.AddCustomColumn | core/log_file.cpp:604-644 | Raises when locked, then when the source does not parse; else one column under the given name |
| SlimLogFile.LogFile.AddMeanSDColumns | core/log_file.cpp:674-714 | Raises when locked, then when the source does not parse; else one generator with the columns name_mean and name_sd |
| SlimLogFile.LockedAfterFirstRow | core/log_file.cpp:312-354 | After the first row, adding a generator raises and changes nothing, and a second row writes no second header |

## Left out

- Floating point. Doubles are exact reals or NaN, so rounding, infinities and the float branches of `sum`, `product` and `seq` are not modelled. The integer `sum` and `product` that fall back to a float state the exact value of that float, not its rounding.
- Rendering a double as text (`StringAtIndex` of a float, `_OutputValue` with `precision`) lives in code that is not part of this model. It is a parameter `fmt`, and the log file receives already-rendered cells.
- Argument and return checking against a signature (`CheckArguments`, `CheckReturn`), the bodies of functions and methods, and delegated functions are not part of this model. Dispatch takes them as parameters.
- What a log generator computes: the generation, sex ratios, sizes, and running user scripts. It comes from the simulation, so a row's cells are a parameter. Whether a custom column's source tokenizes and parses is a parameter `parses`.
- `log_file.h` is not part of this model. The initial state of a `LogFile` is assumed: no automatic logging, default flushing, precision 6, no header, no generators.
- The path side of `ConfigureFile`: `~` resolution, making the path absolute against the working directory, the error for an invalid working directory, and writing the initial contents. The model keeps only the user-visible path with its `.gz` correction. Writing and flushing the file are I/O; rows written are recorded as lines.
- The `LogFile` tag, the `filePath` and `logInterval` getters, `setFilePath()`, and the Dictionary editing methods that always raise on a `LogFile`.
- `SLiMCastToObjectidTypeOrRaise` in `addSubpopulation*`: the subpopulation id is taken as given.
- `slim_globals.h` is not part of this model. `SLIM_TAG_UNSET_VALUE` is assumed to be the most negative int64 and `SLIM_TAGF_UNSET_VALUE` the negated largest double. `SLiMCastToUsertagTypeOrRaise` is taken to accept every int64.
- Reproductive output and genome ids are unbounded: int32 overflow of the former and int64 overflow of `2 * id + 1` are not modelled.
- Null genomes are genomes without mutations. Both genomes are required to have the same number of runs when both carry mutations, which the simulation guarantees.
- UniqueMutations.UniqueMutationsOf: requires the mutation-run layout of both genomes (run k covers positions [k * L, (k + 1) * L) for one run length L, sorted by position, without repeats). The layout is maintained by the genome code, which is not part of this model.
- Strings are sequences of characters, and `substr()` and `strsplit()` count positions in characters. The C++ code counts the bytes of `std::string`, so the two agree only for ASCII text: for `substr("é", 0, 0)` the code returns the first byte of the UTF-8 encoding, the model returns "é".
- The Dictionary of the last log row maps each column name to its rendered text. The code stores the generated `EidosValue` itself, so its type and full precision are not modelled.
- `uniqueMutationsOfType()`, `containsMutations()`, `countOfMutationsOfType()`, `sumOfMutationsOfType()` and the other Individual properties are not part of this model.
- The float branch of `seq()`, the rest of the builtins, and the random-number builtins (`rbinom`, `sample`, ...) are not part of this model.
- The old engine's `seq()` (`core/script_functions.cpp:390-448`) is the same algorithm as the Eidos one and is modelled once, by `EidosVectors.SeqInt`.
- Pedigree.SexAwareRelatedness: the unknown-id case is stated with the exception the code has. On the Y, a female compared with an individual of the same id has relatedness 1 even when that id is unknown (-1).
- SlimIndividual.Individual.SetFitnessScaling: as in the code, the value is stored before it is checked, so a failing call leaves the invalid value in place.
- EidosStrings.SubstrValue: states the documented substring. The code's int32 truncation of first and last and its unsigned comparison of a negative last are stated separately by `SubstrAsWritten` (see Findings).
- EidosStrings.StrSplit: an empty separator splits into characters. As written, the code loops forever there (see Findings).
- EidosVectors.SeqInt: states the result for every input, with exact arithmetic. As written, the int64 step can overflow near the ends of the range (see Findings).

## Findings

| source | as written | input that shows it | evidently intended | confidence | as-written member | corrected member |
|---|---|---|---|---|---|---|
| eidos/eidos_functions.cpp:2871 | `clamped_last >= len` compares an int with the unsigned length, so a negative last is clamped to the end of the string | substr("abc", 0, -1) returns "abc" | an empty string, since no position lies in [0, -1] | not executed | EidosStrings.SubstrNegativeLastAsWritten | EidosStrings.SubstrValue |
| eidos/eidos_functions.cpp:2867-2868 | first and last are cast to `int`, dropping the high bits of an int64 | substr("abc", 4294967296) returns "abc" | an empty string, since the start lies beyond the string | not executed | EidosStrings.SubstrTruncatedFirstAsWritten | EidosStrings.SubstrValue |
| eidos/eidos_functions.cpp:2816-2830 | with an empty separator, `find("", start)` returns start, so the loop never advances | strsplit("ab", "") does not terminate | a split into single characters (or an error) | not executed | EidosStrings.StrSplitEmptySepAsWritten | EidosStrings.StrSplit |
| core/script_functions.cpp:664-668 | the overflow test `product / temp != old_product` divides by the factor (a factor of -1 after INT64_MIN also traps in that division, which the as-written model reports as an overflow) | product(c(5, 0)) divides by zero | the product 0 | not executed | ScriptFunctions.ProductZeroAsWritten | ScriptFunctions.ProductIntegersChecked |
| eidos/eidos_functions.cpp:2126-2131 | `seq_value += by_value` overflows int64 near the end of the range, and the wrapped value still passes the loop test | seq(9223372036854775806, 9223372036854775807, 2) goes on past its first value | the single value 9223372036854775806 | not executed | EidosVectors.SeqOverflowAsWritten | EidosVectors.SeqInt |
| core/individual.cpp:77-78 | the first genome's tag is reset twice and the second genome's never | an individual built on a second genome whose tag is 7 keeps tag 7 on it | both genome tags unset | not executed | SlimIndividual.SecondGenomeTagSurvivesAsWritten | SlimIndividual.Individual.constructor |
