# String store with expiry and counters — a Dafny model

This project models `StringStore` from package `datastructures`. The store is an in-memory map from string keys to entries. Each entry holds a value, a creation instant and an expiry instant. The store has these operations:

- **Set** overwrites an entry. Its expiry instant is `now + expiration`.
- **Get** reads an entry and checks expiry lazily. An entry whose expiry instant has passed reads as missing.
- **Delete** removes a key and reports whether the key was present.
- **Increment** reads the stored value as a decimal integer, adds a delta and stores the result as decimal text. A missing key counts from zero, and the new entry gets Go's zero `time.Time` as its expiry instant. A value that is not an integer yields the non-numeric error and changes nothing.
- **Keys** lists every key in the map. This includes keys that have expired but have not been swept yet.
- **Sweep** is one wake-up of the background sweeper. It deletes the entries whose expiry instant is non-zero and has passed.

Layout:

- `decimal_text.dfy` (module `DecimalText`) holds `FormatInt` and `ParseInt`. They stand for `fmt.Sprintf("%d")` and `fmt.Sscanf("%d")`. The module proves that parsing what `FormatInt` writes gives back the number. It also proves the converse: integer text without leading zeros, and other than "-0", is exactly what `FormatInt` writes for its value. It states exactly which texts parse and what number any accepted text means.
- `string_store.dfy` (module `Datastructures`) holds three parts:
  - the `Entry` datatype;
  - the operations as functions of the map (`LookupAt`, `AfterSet`, `AfterDelete`, `AfterIncrement`, `AfterSweep`);
  - the class `StringStore`. Its `data` field is a `map<string, Entry>`, and each method is proved to match the corresponding function.

  The lemmas relating the operations follow in the same file.

Time is an integer, and each call gets its clock reading as the parameter `now`. `ZeroTime` (0) stands for Go's zero `time.Time`, and `IsZero` tests for it. `After(t, u)` is `t > u`, like `time.Time.After`. Every instant the operations see lies after the zero instant (`ClockReading`). That holds for a clock reading and for a reading plus a `time.Duration`, because a Duration spans at most about 292 years. So Set never stores the zero instant, and only Increment does.

### The two expiry checks disagree

`Get` hides an entry once `now` is after its expiry instant, and it never tests `IsZero` (datastructure/string.go:60). The sweeper removes an entry only when its expiry instant is non-zero and has passed (datastructure/string.go:127). An entry created by `Increment` on a missing key has the zero expiry instant (datastructure/string.go:92). So `Get` reports that entry as missing at every real clock reading. Meanwhile the sweeper never removes it, and `Keys` keeps listing it. The model keeps this behaviour as written. Lemma `IncrementedKeyHiddenButKept` states it.

Increment keeps working on such an entry, because it never checks expiry. It reads the stored text and updates it in place.

## Model

| member | source | states |
|---|---|---|
| DecimalText.FormatInt | datastructure/string.go:90 | `Sprintf("%d")` writes integer text: an optional minus sign, then digits. The text starts with '-' exactly when the number is negative. |
| DecimalText.FormatNat | datastructure/string.go:109 | The digits of a natural number are a non-empty run of decimal digits with no leading zero. |
| DecimalText.ParseDigits | datastructure/string.go:99 | A run of characters has a value exactly when it is one or more decimal digits. |
| DecimalText.ParseInt | datastructure/string.go:99-102 | `Sscanf("%d")` succeeds exactly on an optional '-' followed by one or more digits. Every other text is a scan error. |
| DecimalText.ParseFormatNat | datastructure/string.go:109 | Reading back the digits written for n gives n. |
| DecimalText.ParseFormatInt | datastructure/string.go:90-109 | Round trip: `ParseInt(FormatInt(n)) == Some(n)` for every integer n. |
| DecimalText.FormatIntInjective | datastructure/string.go:109 | Distinct numbers are stored as distinct text. |
| DecimalText.ParseDigitsPlaceValue | datastructure/string.go:99 | For any digit run, the value read left to right is its positional value: each digit times ten to the power of its place. |
| DecimalText.ParseIntValue | datastructure/string.go:99 | For any text `Sscanf("%d")` accepts, the number is the positional value of the digits, negated after a leading '-'. |
| DecimalText.ParseLeadingZero | datastructure/string.go:99 | A leading zero does not change the value of a digit run. |
| DecimalText.ParseIntNonCanonical | datastructure/string.go:99 | Text that Set may store but `Sprintf` never writes still reads as a number: "007" is 7 and "-0" is 0. |
| DecimalText.FormatParseDigits | datastructure/string.go:99-109 | The other direction of the round trip: a digit run without leading zeros is exactly what `FormatNat` writes for its value. |
| DecimalText.FormatParseInt | datastructure/string.go:99-109 | The converse round trip for signed text: integer text without leading zeros, and other than "-0", is exactly what `FormatInt` writes for the number it parses to. |
| Datastructures.LookupAt | datastructure/string.go:54-64 | Get finds a key exactly when it is in the map and `now` is not after its expiry instant. The zero instant gets no special case. Found gives the stored value; not found gives "". |
| Datastructures.AfterSet | datastructure/string.go:39-45 | Set stores a fresh entry under the key: the new value, createdAt `now`, and an expiry instant `expiration` after it, which is never the zero instant. The old entry and its createdAt are overwritten. Every other key keeps its entry. |
| Datastructures.AfterDelete | datastructure/string.go:72-77 | Delete leaves exactly the old keys minus the deleted one, each with its entry unchanged. |
| Datastructures.AfterIncrement | datastructure/string.go:85-114 | A non-numeric stored value gives the error and leaves the map unchanged. Otherwise the result is the parsed number (0 for a missing key) plus delta. The stored text is `FormatInt` of that result, so it reads back as the result. A new entry is stamped `now` with the zero expiry instant. An existing entry keeps its createdAt and expiresAt. No other key changes. |
| Datastructures.AfterSweep | datastructure/string.go:126-130 | A sweep removes exactly the entries whose expiry instant is non-zero and before `now`. It keeps every other entry unchanged. |
| Datastructures.StringStore.constructor | datastructure/string.go:23-31 | A new store is empty. |
| Datastructures.StringStore.Set | datastructure/string.go:35-47 | The key maps to a new entry with the given value, createdAt `now` and expiresAt `now + expiration`. Every other entry is unchanged. |
| Datastructures.StringStore.Get | datastructure/string.go:50-65 | Returns what `LookupAt` specifies and changes nothing. |
| Datastructures.StringStore.Delete | datastructure/string.go:68-78 | Returns true exactly when the key was present. Afterwards the key is absent and all other entries are unchanged. |
| Datastructures.StringStore.Increment | datastructure/string.go:81-115 | Its outcome and the new map are those `AfterIncrement` specifies. |
| Datastructures.StringStore.Sweep | datastructure/string.go:123-132 | The loop over the map, deleting as it goes, leaves exactly `AfterSweep` of the old map. |
| Datastructures.StringStore.Keys | datastructure/string.go:137-146 | Returns every key of the map exactly once, so the list has as many elements as the map has entries. |
| Datastructures.GetAfterSet | datastructure/string.go:35-64 | After Set, Get of the key returns the value up to and including `now + expiration`, and "not found" after that. Every other key reads as before. |
| Datastructures.GetAfterDelete | datastructure/string.go:68-78 | After Delete the key reads as missing and every other key reads as before. A second Delete finds nothing. |
| Datastructures.SweepAfterSet | datastructure/string.go:42-127 | Set never stores the zero expiry instant. So a later sweep removes Set's entry exactly when Get reports it missing. |
| Datastructures.IncrementTwice | datastructure/string.go:85-114 | Two Increments by a and then b return start+a and start+a+b. Start is 0 for a fresh key. |
| Datastructures.IncrementEachSums | datastructure/string.go:81-115 | Increments applied one after another lose no update. The last one returns the start plus the sum of all deltas. |
| Datastructures.IncrementedKeyHiddenButKept | datastructure/string.go:60-127 | An entry created by Increment on a missing key is reported missing by Get at every clock reading. The sweeper keeps it, and Keys lists it. |
| Datastructures.GetAfterSweep | datastructure/string.go:54-64 | A sweep at `now` changes nothing Get reports at `now` or later. |
| Datastructures.SweepTwice | datastructure/string.go:123-131 | Sweeping at `now` and then at a later instant equals one sweep at the later instant. A repeated sweep at the same instant does nothing. |
| Datastructures.KeysListUnsweptExpired | datastructure/string.go:123-145 | Before a sweep, Keys lists a key whose entry has expired even though Get reports it missing. After a sweep at that instant, Keys does not list it. |

## Left out

- The goroutine and the one-minute ticker started by `NewStringStore` and driving `backgroundCleanup` are not modelled. This is an unbounded timer loop. One wake-up is the callable method `Sweep(now)`.
- `sync.RWMutex` is not modelled. Each method is one atomic step, as it is under the lock, and concurrent interleavings are not modelled.
- `time.Now()` is not modelled. The clock reading is the parameter `now`, and Set's two readings (createdAt and expiresAt) become the same instant.
- Monotonic clock readings are not modelled. Instants are plain integers, and `After` is integer comparison.
- The bounds of real instants are not modelled beyond `ClockReading`. Instants are unbounded integers that lie after the zero instant, and `now + expiration` is not limited to the range `time.Time.Add` can reach.
- DecimalText.ParseInt: models `Sscanf("%d")` strictly. It rejects text that Go's scanner accepts: leading spaces, a '+' sign, and trailing characters after the digits. In the other direction, it accepts digit runs too large for a 64-bit `int`, which Go rejects with a range error. So the model's Increment succeeds on such a stored value where Go's Increment returns the non-numeric error.
- Datastructures.StringStore.Increment: does not model Go's 64-bit wrap-around of `currentValue + delta`, because integers are unbounded here. It also omits the 0 that Go returns beside the error, because callers never read it.
- Datastructures.StringStore.Set: does not model the always-nil `error` result. Set cannot fail.
- Datastructures.StringStore.Keys: returns the keys in the nondeterministic order of its loop. The contract fixes only which keys appear, each once, not their order, just as Go's map iteration order is unspecified.
- Datastructures.IncrementEachSums: gives every Increment in the run the same clock reading. Increment's result does not depend on the clock.
