# Kotlin language-tour demos, modelled in Dafny

The repository is a set of Kotlin tutorial files. This project models the ones
that hold logic of their own:

- the generic LIFO stack `MutableStack<E>`,
- the EZ-Pass account map, which credits existing accounts and rejects missing ones,
- the open-issue set, which rejects duplicate descriptions,
- infix and operator functions: string repetition, pair building, `Person.likes` and inclusive-range substrings,
- the rental price computed through an object expression, and `BigBen.getBongs`,
- enum classes (`State`, `Color` with its red-channel bitmask test),
- `when` dispatch over values of type `Any`, and over a sealed hierarchy,
- the data class `User` (equality, `hashCode`, `copy`, `componentN`),
- higher-order functions (`calculate`, `operation`, `square`) and the local `max`.

Kotlin's semantics are spelled out where they matter:

- `Int` is 32-bit two's complement and wraps on overflow. This is `Ints.Int32`, with `Ints.Add`, `Ints.Mul` and `Ints.Neg`.
- `Long` is `Ints.Int64`.
- Exceptions raised by the standard library are values of `Results.Result`, not preconditions. These are `last()` and `removeAt` on an empty list, `repeat` with a negative count, and `substring` out of bounds.
- Top-level mutable values (`EZPassAccounts`, `openIssues`) are fields of a class that holds the file's state.
- `EZPassReport` is a second reference to the same map object as `EZPassAccounts`.

Files map one-to-one to source files. `ints.dfy`, `results.dfy` and
`strings.dfy` model the parts of the Kotlin/Java runtime that the demos call:
`String.repeat`, `String.substring` and `String.hashCode`.

The repository also holds coroutine and flow demos. They are not part of this model (see below).

## Model

| member | source | states |
|---|---|---|
| `Generic.MutableStack.constructor` | src/classes/Generic.kt:12-14 | The new stack holds the constructor items in argument order; the last item is the top. |
| `Generic.MutableStack.IsEmpty` | src/classes/Generic.kt:23-25 | `isEmpty()` holds exactly when `size()` is 0. |
| `Generic.MutableStack.Size` | src/classes/Generic.kt:25 | `size()` is the number of elements in the stack's list. |
| `Generic.MutableStack.Push` | src/classes/Generic.kt:17 | `push(e)` appends e after all earlier elements and returns true. |
| `Generic.MutableStack.Peek` | src/classes/Generic.kt:19 | `peek()` returns the last element and changes nothing. On an empty stack it fails with NoSuchElementException. |
| `Generic.MutableStack.Pop` | src/classes/Generic.kt:21 | `pop()` returns the last element and removes exactly it, keeping the prefix. On an empty stack it fails with IndexOutOfBoundsException and changes nothing. |
| `Generic.MutableStackOf` | src/classes/Generic.kt:52 | `mutableStackOf(xs)` builds a new stack with the same contents as `MutableStack(xs)`. |
| `Generic.PushThenPop` | src/classes/Generic.kt:17-21 | A push followed by a pop returns the pushed element and restores the previous contents. |
| `Generic.PopAll` | src/classes/Generic.kt:38-41 | Popping `size()` times yields the elements in reverse insertion order and leaves the stack empty. |
| `Generic.ReversedAt` | src/classes/Generic.kt:38-41 | The reverse order used by `PopAll`: the popped sequence has the stack's length, and entry k is element `size-1-k`. |
| `Generic.Demo` | src/classes/Generic.kt:30-45 | The demo peeks 9.87, pops 9.87, 2.7, 3.14, 0.62, ends empty, and `mutableStackOf` rebuilds the initial contents. |
| `CollectionsMap.EZPass.constructor` | src/collections/Map_.kt:9-11 | The accounts start as {1:100, 2:100, 3:100}. The report is the same map object. |
| `CollectionsMap.EZPass.Report` | src/collections/Map_.kt:11 | `EZPassReport` is a view of the accounts map itself: whenever the report and the accounts are one object, it shows exactly the accounts' current entries. |
| `CollectionsMap.EZPass.UpdatePointsCredit` | src/collections/Map_.kt:13-20 | The new map is `Credited(old map, id)`. The report and the accounts stay one object, and the report shows the updated map. |
| `CollectionsMap.Credited` | src/collections/Map_.kt:13-20 | The key set is unchanged. An existing id gains `POINTS_X_PASS` = 15 (exactly +15 when no overflow). Every other account is unchanged. A missing id leaves the map as it was. |
| `CollectionsMap.CreditsKeepKeys` | src/collections/Map_.kt:13-20 | No sequence of updates ever adds or removes an account. |
| `CollectionsMap.Demo` | src/collections/Map_.kt:29-35 | From {1:100, 2:100, 3:100}, two updates of 1 and one of 5 leave the report at {1:130, 2:100, 3:100}. |
| `CollectionsSet.Issues.constructor` | src/collections/Set_.kt:9 | The set starts with uniqueDescr1, uniqueDescr2 and uniqueDescr3. |
| `CollectionsSet.Issues.AddIssue` | src/collections/Set_.kt:11-13 | The result and the new set are exactly those of `Added(old set, d)`. |
| `CollectionsSet.Added` | src/collections/Set_.kt:12 | True exactly when d was absent. Afterwards d is present and nothing else is added or lost. The set grows by one on true and is unchanged on false. |
| `CollectionsSet.SecondAddRejected` | src/collections/Set_.kt:11-13 | Adding the same description twice: the second add returns false and changes nothing. |
| `CollectionsSet.StatusLogDistinguishes` | src/collections/Set_.kt:15-17 | `getStatusLog` gives different lines for true and false. |
| `CollectionsSet.GetStatusLog` | src/collections/Set_.kt:15-17 | `getStatusLog(true)` is "registered correctly." and `getStatusLog(false)` is "marked as duplicate and rejected.". |
| `CollectionsSet.Demo` | src/collections/Set_.kt:19-25 | uniqueDescr4 is registered and uniqueDescr2 is rejected. The two printed lines are "Issue uniqueDescr4 registered correctly." and "Issue uniqueDescr2 marked as duplicate and rejected.". |
| `Strings.RepeatChecked` | src/functions/InfixFunctions.kt:12 | `s.repeat(n)` fails with IllegalArgumentException exactly when n < 0. Otherwise its length is n·\|s\| and character i is `s[i mod \|s\|]`. |
| `InfixFunctions.Times` | src/functions/InfixFunctions.kt:12 | `n times s` fails with IllegalArgumentException for n < 0, and is otherwise n copies of s (`Strings.Repeat`). |
| `InfixFunctions.To` | src/functions/InfixFunctions.kt:18-20 | `a to b` is the pair whose first part is a and second part is b. |
| `InfixFunctions.Onto` | src/functions/InfixFunctions.kt:23 | `a onto b` is the pair whose first part is a and second part is b. |
| `InfixFunctions.TimesDemo` | src/functions/InfixFunctions.kt:14-15 | `2 times "Bye "` is "Bye Bye " and `2.times("Bye")` is "ByeBye". |
| `InfixFunctions.OntoIsTo` | src/functions/InfixFunctions.kt:18-24 | `a onto b` is the same pair as `a to b`, and its parts are a and b. |
| `InfixFunctions.Person.constructor` | src/functions/InfixFunctions.kt:34-35 | A new person has the given name and likes nobody yet. |
| `InfixFunctions.Person.Likes` | src/functions/InfixFunctions.kt:36 | `p likes q` appends q to `p.likedPeople`, duplicates included. It leaves `q.likedPeople` alone unless q is p. |
| `InfixFunctions.LikedNames` | src/functions/InfixFunctions.kt:30-31 | The names printed are those of `likedPeople`, in order. |
| `InfixFunctions.Demo` | src/functions/InfixFunctions.kt:17-31 | The pairs printed are ("Ferrari", "Katrina"), ("xyz", "abc") and ("McLaren", "Lucas"). Sophia likes exactly ["Claudia"]. |
| `ObjectKeyword.RentTotal` | src/specialClasses/ObjectKeyword.kt:37-53 | The total is 30·standardDays + 50·festivityDays + 100·specialDays, reduced to 32 bits, and is exactly that sum when it fits in an `Int`. |
| `ObjectKeyword.RentMonotone` | src/specialClasses/ObjectKeyword.kt:43-49 | Without overflow, the total never drops when a non-negative day count grows. Zero days cost 0. |
| `ObjectKeyword.RentDemo` | src/specialClasses/ObjectKeyword.kt:25 | `rentPrice(10, 2, 1)` totals 500. |
| `ObjectKeyword.GetBongs` | src/specialClasses/ObjectKeyword.kt:71-79 | `getBongs(n)` prints "BONG " exactly n times, which is 5·n characters, and nothing when n < 1. |
| `EnumClasses.MessageInjective` | src/specialClasses/EnumClsses.kt:21-25 | The exhaustive `when` over `State` gives each state its own message. |
| `EnumClasses.MessageDemo` | src/specialClasses/EnumClsses.kt:16-26 | IDLE gives "It's idle", RUNNING (the demo's state) gives "It's running" and FINISHED gives "It's finished". |
| `EnumClasses.Message` | src/specialClasses/EnumClsses.kt:21-25 | The message of the exhaustive `when` over `State` always starts with "It's ". |
| `EnumClasses.Color.Rgb` | src/specialClasses/EnumClsses.kt:39-43 | Each colour's `rgb` is a 24-bit 0xRRGGBB value. |
| `EnumClasses.Color.ContainsRed` | src/specialClasses/EnumClsses.kt:45 | `containsRed()` masks `rgb` with 0xFF0000 and compares with 0. It holds exactly for RED and YELLOW. |
| `EnumClasses.ContainsRedIffRedChannel` | src/specialClasses/EnumClsses.kt:45 | `containsRed()` means `(rgb and 0xFF0000) != 0`. It holds exactly when the red byte is non-zero, that is for RED and YELLOW. |
| `EnumClasses.RgbInjective` | src/specialClasses/EnumClsses.kt:39-43 | The four colours have pairwise distinct `rgb` values. |
| `When.Cases` | src/control_flow/When.kt:15-23 | First match wins. Int 1 is "One". "Hello" is "Greeting". Any Long is "Long". Any other non-String is "Not a string". Any other String is "Unknown". Each label is stated both ways. |
| `When.WhenAssign` | src/control_flow/When.kt:32-40 | Int 1 gives "one". "Hello" gives 1. Any Long gives false. Everything else gives 42. Each case is stated both ways. |
| `When.CasesAgreesWithWhenAssign` | src/control_flow/When.kt:17-38 | `whenAssign` falls to its else-value 42 exactly for the values `cases` labels "Not a string" or "Unknown". |
| `When.Demo` | src/control_flow/When.kt:7-30 | The labels and values for "Hello", 1, 0L, a `MyClass`, "hello" and 3.4. |
| `SealedClasses.GreetMammal` | src/specialClasses/SealedClasses.kt:14-20 | The greeting is "Hello " then the mammal's name. A human's greeting continues with "; You're working as a " and the job. A cat's greeting ends after the name. |
| `SealedClasses.CatGreetingInjective` | src/specialClasses/SealedClasses.kt:17 | Two cats get the same greeting exactly when they share a name. |
| `SealedClasses.Demo` | src/specialClasses/SealedClasses.kt:22-24 | `greetMammal(Cat("Snowy"))` is "Hello Snowy", and `Cat(n).name` is n. |
| `SealedClasses.Mammal.Name` | src/specialClasses/SealedClasses.kt:9-12 | `Mammal.name` is the subclass's constructor name: `catName` for a cat, `humanName` for a human. |
| `DataClasses.EqualityIsStructural` | src/specialClasses/DataClasses.kt:9 | Two users are equal exactly when both name and id are equal. |
| `DataClasses.HashCodeSpec` | src/specialClasses/DataClasses.kt:21-23 | Equal users have equal hash codes. The hash is (the name's hash polynomial)·31 + id, taken modulo 2^32. |
| `DataClasses.CopySpec` | src/specialClasses/DataClasses.kt:26-28 | `copy()` is equal to the original. `copy(name)` changes only the name. `copy(id = i)` changes only the id. |
| `DataClasses.ComponentsRoundTrip` | src/specialClasses/DataClasses.kt:30-31 | `User(component1(), component2())` is the original user. |
| `DataClasses.Demo` | src/specialClasses/DataClasses.kt:11-31 | ("Alex",1) = ("Alex",1) and ("Alex",1) ≠ ("Max",2). The hash codes printed are 63347075 twice and 2390846. The copies and components are as printed. |
| `DataClasses.User.HashCode` | src/specialClasses/DataClasses.kt:9 | The generated `hashCode` is `name.hashCode() * 31 + id` in `Int` arithmetic, which is (the name's hash polynomial)·31 + id modulo 2^32. |
| `DataClasses.User.Copy` | src/specialClasses/DataClasses.kt:26-28 | The generated `copy` has exactly the given properties; each one defaults to the original's value. |
| `DataClasses.User.Component1` | src/specialClasses/DataClasses.kt:30 | `component1()` is the name. |
| `DataClasses.User.Component2` | src/specialClasses/DataClasses.kt:31 | `component2()` is the id. |
| `Strings.Hash` | src/specialClasses/DataClasses.kt:9 | `String.hashCode` (used for the name) wraps `h = 31·h + c` at every step. The result is the hash polynomial s[0]·31^(n-1) + … + s[n-1] modulo 2^32. |
| `HigherOrderFunctions.Square` | src/functions/HigherOrderFunctions.kt:48 | `square(x)` is exactly x·x, and non-negative, while \|x\| ≤ 46340, so that the product fits in an `Int`. |
| `HigherOrderFunctions.SquareEven` | src/functions/HigherOrderFunctions.kt:48 | `square(-x) == square(x)` for every `Int`, `Int.MIN_VALUE` included. |
| `HigherOrderFunctions.Demo` | src/functions/HigherOrderFunctions.kt:13-43 | `calculate(4, 5) { a, b -> a * b }` is 20. `operation()` behaves as `square`, so `operation()(2)` is 4. |
| `HigherOrderFunctions.Calculate` | src/functions/HigherOrderFunctions.kt:13-16 | `calculate(x, y, operation)` is `operation(x, y)`. |
| `HigherOrderFunctions.Operation` | src/functions/HigherOrderFunctions.kt:41-43 | `operation()` returns a function that agrees with `square` on every `Int`. |
| `Strings.Substring` | src/functions/OperatorFunctions.kt:11 | `substring(b, e)` succeeds exactly when 0 ≤ b ≤ e ≤ \|s\|, and is then the slice between s[..b] and s[e..]. Otherwise it fails with StringIndexOutOfBoundsException. |
| `OperatorFunctions.Get` | src/functions/OperatorFunctions.kt:11 | `s[a..b]` succeeds exactly when 0 ≤ a ≤ b+1 ≤ \|s\| and b < `Int.MAX_VALUE`. It then has length b−a+1, character i is `s[a+i]`, and it is a contiguous slice of s. |
| `OperatorFunctions.Times` | src/functions/OperatorFunctions.kt:8 | `n * s` fails with IllegalArgumentException for n < 0, and is otherwise n copies of s (`Strings.Repeat`). |
| `OperatorFunctions.TimesDemo` | src/functions/OperatorFunctions.kt:8-9 | `2 * "Bye "` is "Bye Bye ". |
| `OperatorFunctions.GetDemo` | src/functions/OperatorFunctions.kt:12-13 | `str[0..14]` of the quoted sentence is "Always forgive ". |
| `ConditionalExpression.Max` | src/control_flow/ConditionalExpression.kt:7 | `max(a, b)` is at least a and at least b, and is one of them. |
| `ConditionalExpression.MaxCommutes` | src/control_flow/ConditionalExpression.kt:7 | `max(a, b) == max(b, a)`. |
| `ConditionalExpression.Demo` | src/control_flow/ConditionalExpression.kt:9 | `max(99, -42)` is 99. |

## Left out

- The coroutine and flow demos (src/coroutine/, src/async_flow/) are not part of this model. Their point is scheduling, cancellation and timing inside kotlinx.coroutines, which is outside the repository.
- These files only call standard-library collection operations on literals, so they are not modelled:
  - src/collections/stream/
  - src/collections/Zip.kt
  - src/collections/MapElementAccess.kt
  - src/control_flow/Equality.kt
- These files only demonstrate language mechanics or print:
  - src/scope_function/
  - src/delegation/
  - the lambda demos
  - the class, inheritance, loop, vararg and introduction demos
- src/functions/ExtensionFunctions.kt is not modelled: it uses `Float` prices and `maxBy`, which is floating point.
- Console output is not modelled in general. `getBongs` returns the text it prints and `cases` returns its printed label. Each demo returns or states the values its `main` prints: the stack's peeks and pops, the report maps, the two issue lines, the three pairs and the liked names, the enum messages, the `when` labels, the greeting, the `User` comparisons, hashes, copies and components, and the computed numbers and strings. The `toString` renderings of the printed objects are not modelled (see below).
- `LuckDispatcher.getNumber` (random numbers) and `DoAuth.takeParams` (printing only) are not modelled.
- `accountsReport`'s per-entry lines are not modelled. The report is returned as the map it iterates.
- `toString` of `MutableStack`, `User`, `Pair` and enum constants is not modelled. It depends on each element type's `toString`, and the stack demo's elements are Doubles.
- `::sum` in `calculate(4, 5, ::sum)` is not modelled. Its definition is commented out in the source.
- CollectionsMap.EZPass.UpdatePointsCredit: does not model the "Updating …" and "Error: …" lines it prints, only the map it leaves.
- Generic.Demo: the Double elements are exact `real` values; IEEE rounding plays no part in the stack's behaviour.
- When.Any: a Double carries no value, because no branch of either `when` inspects one. A `MyClass` instance is a single tag.
- Strings.Hash: Dafny characters are Unicode scalar values, Java's are UTF-16 code units. The hash agrees with Java only for text in the Basic Multilingual Plane (BMP).
- Strings.Substring: indices and `|s|` count Unicode scalar values, while Java counts UTF-16 code units. Results match Kotlin only for BMP text; for example `"😀"[0..0]` is the lone surrogate `"\uD83D"` in Kotlin but the whole emoji here.
- OperatorFunctions.Get: built on `Strings.Substring`, so its bounds and indices likewise count scalar values, not UTF-16 code units. It matches Kotlin only for BMP text.
- Strings.RepeatChecked: the length n·|s| counts scalar values, not UTF-16 code units. It matches Kotlin's `length` only for BMP text.
- DataClasses.User.HashCode: inherits the `Strings.Hash` limit above; it matches the JVM only for names in the BMP.
- Strings.RepeatChecked: does not model OutOfMemoryError when n·|s| exceeds the JVM's maximum string length.
- The iteration order of the `LinkedHashMap` and `LinkedHashSet` behind `mutableMapOf` and `mutableSetOf` is not modelled. No modelled operation depends on it.
