# bench-config-deserializers, modelled in Dafny

The repository benchmarks how fast several decoders of structured-data formats
read back one large, randomly generated object graph. This project models the
three self-contained pieces of that harness and proves what they promise:

- **The duration aggregator** (`durations.dfy`, module `Durations`): an `Entry`
  record per format (name, decode time in nanoseconds, source length in bytes)
  and a `Durations` class holding the ordered entry list and the number of
  samples. `Add` appends an entry, `Sum` totals many samples index by index with
  the source's nested loops, `Check` is the "some time was spent" guard,
  `Fastest` and `Get` are the searches, and `SortEntries` is the stable sort by
  duration with which the report starts.
- **The random-string generators** (`random.dfy`, module `Random`):
  `RandStringOfLen`, `RandString` and `RandText` over an abstract generator.
  A generator state `Rng` is an arbitrary infinite stream of raw words plus the
  position of the next unread word. Each primitive draw reads one word:
  `GenRange(g, lo, hi)` yields a value in `[lo, hi)` and `Coin` a boolean. No
  proof depends on which stream it is, so the results hold for every generator
  algorithm and every seed. Each function returns its string together with
  the successor state, so the draw order of the source is explicit.
- **The synthetic data model** (`thing.dfy`, module `Thing`): `Thing`,
  `VarThing` (the untagged union `Simple | Detailed`), `DetailedThing`, `Stuff`,
  `Bidule` and `Condition` as datatypes. Their `new` constructors are
  functions that consume the generator in the source's order and return the
  value together with the successor state. The `stuff` map is built by
  inserting the drawn pairs one at a time (`Collect`).
- `wrappers.dfy` holds `Option`.

Fixed-width integer fields use subset types (`U8`, `U16`, `I16`, `I32`).
Floating-point fields hold the raw word they were drawn from (`F32`, `F64`).

Panics of the source are modelled as follows:
- `get` and `fastest` panic (`unwrap`) on a missing entry; that is a precondition of `Get` and `Fastest`.
- `sum` panics when a later sample is shorter than the first; that is a precondition of `Sum`.
- `check` ends in an assertion; `Check` returns whether that assertion passes.

`Thing::new` draws a pair count n in [1500, 1800) for the `stuff` map and
inserts n pairs into a hash map. When `rand_string` repeats a key (two short
keys can be equal), the later pair replaces the earlier one and the map holds
fewer than n keys. `Thing.NewThing` states that the map is `Collect` of the
drawn pairs with at most n keys, `Thing.CollectLastWins` that the last pair
of a key wins, and `Thing.CollectSize` that the map has n keys exactly when
no key repeats.

## Model

| member | source | states |
|---|---|---|
| `Durations.Durations.constructor` | src/durations.rs:36-43 | `Durations::default()` has no entries and a sample count of 1 |
| `Durations.Durations.Add` | src/durations.rs:66-77 | the entry list grows by exactly one entry at the end, carrying the given name, duration and source length; earlier entries and the sample count are unchanged |
| `Durations.FirstNamed` | src/durations.rs:84 | when some entry has the name, returns an in-range index of an entry with that name, and no earlier entry has it |
| `Durations.Durations.Get` | src/durations.rs:78-85 | requires an entry with that name (the source panics otherwise); returns an entry of the list with that name, and no earlier entry has that name |
| `Durations.Durations.Sum` | src/durations.rs:86-102 | no samples gives the default (no entries, count 1). Otherwise the result is a new object with as many entries as the first sample, the first sample's names in order, sample count = number of samples, and at each index i the duration and source length equal the sum over all samples of their entry i. Requires every sample to be at least as long as the first (the indexing panics otherwise). Names of later samples are never compared |
| `Durations.Durations.AddLaterSamples` | src/durations.rs:95-98 | the inner loop of `sum`: the entry's name is kept, and its duration and source length grow by the totals of entry `idx` over every sample after the first |
| `Durations.ColumnSplit` | src/durations.rs:94-99 | a column total over all samples is the total over the first n samples plus the total over the rest (used to take the first sample as the starting value) |
| `Durations.TotalDuration` | src/durations.rs:106-109 | the fold of `check` over the durations: the total is at least each entry's duration |
| `Durations.TotalDurationPositive` | src/durations.rs:105-110 | the folded total of durations is positive if and only if some entry has a positive duration |
| `Durations.Durations.Check` | src/durations.rs:103-111 | `check` passes if and only if some entry has a positive duration, that is, it fails exactly when every duration is 0 |
| `Durations.FirstFastest` | src/durations.rs:113 | the index `min_by_key` returns: its duration is at most every entry's duration, and every earlier entry is strictly slower (ties go to the first) |
| `Durations.Durations.Fastest` | src/durations.rs:112-114 | requires a non-empty list (the source panics otherwise); returns an entry of the list whose duration is at most every other duration, with every earlier entry strictly slower |
| `Durations.SortByDuration` | src/durations.rs:116 | the reference for `sort_by_key`: the result is in non-decreasing duration order, has the same multiset of entries as the input and the same length |
| `Durations.InsertKeepsSorted` | src/durations.rs:116 | inserting an entry into a sorted list by duration keeps it sorted |
| `Durations.InsertPermutes` | src/durations.rs:116 | inserting an entry adds exactly that entry to the multiset of the list |
| `Durations.InsertKeepsOrderOfEquals` | src/durations.rs:116 | the inserted entry goes before every entry of equal duration already in the list, and those keep their order |
| `Durations.SortIsStable` | src/durations.rs:116 | for every duration d, the entries of duration d appear in the same relative order before and after the sort |
| `Durations.SortedFastestIsFirst` | src/durations.rs:116-119 | on a sorted non-empty list, `fastest` returns index 0 |
| `Durations.SortKeepsFastest` | src/durations.rs:116-119 | the stable sort does not change which entry `fastest` returns |
| `Durations.Durations.SortEntries` | src/durations.rs:115-116 | the entries become their stable sort by duration: sorted, a permutation, and stable for every duration. Afterwards `Fastest()` is the first entry and equals the fastest entry before the sort. The sample count is unchanged |
| `Random.GenRange` | src/random.rs:11 | `gen_range(lo..hi)` yields a value in `[lo, hi)` and consumes exactly one draw |
| `Random.Coin` | src/thing.rs:113 | one `gen::<bool>()` (also the coins of src/thing.rs lines 98, 123 and 128) consumes exactly one draw; its value is any boolean |
| `Random.AlphanumericSymbols` | src/random.rs:16 | the `Alphanumeric` symbol table has 62 symbols, each an ASCII letter or digit |
| `Random.GenAlphanumeric` | src/random.rs:16-18 | one `Alphanumeric` draw is an ASCII letter or digit and consumes one draw |
| `Random.RandStringOfLen` | src/random.rs:15-20 | the result has exactly `len` characters, every one ASCII alphanumeric, and the generator advances by exactly `len` draws |
| `Random.RandStringLengthBounds` | src/random.rs:11 | a length a·b with a in [3,8) and b in [1,12) lies in [3, 77] |
| `Random.RandString` | src/random.rs:10-13 | the length is a·b, where a is the first draw (in [3,8)) and b the second (in [1,12)). So the length lies in [3, 77], every character is alphanumeric, and the generator advances by 2 + length draws |
| `Random.GenTextChar` | src/random.rs:30 | the index is drawn from [0, length of CHARSET), so the lookup is in bounds and the character is a member of CHARSET |
| `Random.TextChars` | src/random.rs:29-31 | the result has exactly `len` characters, each a member of CHARSET, and the generator advances by `len` draws |
| `Random.RandTextLengthBounds` | src/random.rs:28 | a length a·b with a in [3,25) and b in [8,25) lies in [24, 576] |
| `Random.RandText` | src/random.rs:27-32 | the length is a·b, where a is the first draw (in [3,25)) and b the second (in [8,25)). So the length lies in [24, 576], every character is in CHARSET, and the generator advances by 2 + length draws |
| `Random.RandStringOfLenLocal` | src/random.rs:15-20 | two generator states at the same position whose streams agree on the next `len` words give the same string and the same successor state |
| `Random.RandStringLocal` | src/random.rs:10-13 | `rand_string` depends only on the words it consumes: two states agreeing on that window give the same string and end at the same position |
| `Random.TextCharsLocal` | src/random.rs:29-31 | the text characters depend only on the next `len` words |
| `Random.RandTextLocal` | src/random.rs:27-32 | `rand_text` depends only on the words it consumes: two states agreeing on that window give the same text and end at the same position |
| `Thing.GenU8` | src/thing.rs:98 | the `u8` cost value is in [0, 256) and consumes one draw |
| `Thing.GenI16` | src/thing.rs:133 | the `i16` field `x` is in [-32768, 32768) and consumes one draw |
| `Thing.GenI32` | src/thing.rs:149 | each `i32` number is in [-2^31, 2^31) and consumes one draw |
| `Thing.GenF32` | src/thing.rs:103 | the `f32` field `value` consumes one draw |
| `Thing.GenF64` | src/thing.rs:100 | each `f64` coordinate consumes one draw |
| `Thing.GenCost` | src/thing.rs:98 | the cost is `Some` exactly when its coin is true, and then one further draw is consumed |
| `Thing.NewDetailedThing` | src/thing.rs:96-108 | the key is a `rand_string` output and the text a `rand_text` output. `cost` is `Some` exactly when the first coin is true. The generator only moves forward |
| `Thing.NewVarThing` | src/thing.rs:111-118 | the result is `Simple` exactly when the first coin is true; its string or detailed thing has the constructor's shape |
| `Thing.GenOptionalVarThing` | src/thing.rs:123-127 | `var_thing` is `Some` exactly when its coin is true, and then holds a well-formed `VarThing` |
| `Thing.GenGood` | src/thing.rs:128 | `good` is `Some` exactly when its coin is true, and then one further coin is consumed |
| `Thing.NewTags` | src/thing.rs:129-131 | exactly n tags, each of exactly 4 alphanumeric characters, consuming 4·n draws |
| `Thing.NewStuff` | src/thing.rs:121-143 | the tag count is in [5,15) and every tag has length 4. `name` is always `Some` and holds a `rand_string` output. `quantity` is in [3,500) and `condition` is an element of CONDITIONS. `var_thing` and `good` are `Some` exactly when their respective coins (the first coin, and the first coin after the var_thing) are true |
| `Thing.NewNumbers` | src/thing.rs:149 | exactly n 32-bit numbers, consuming n draws |
| `Thing.NewBidule` | src/thing.rs:146-151 | the id has exactly 10 alphanumeric characters, there are exactly 20 numbers, and 30 draws are consumed |
| `Thing.NewVarThings` | src/thing.rs:77-79 | exactly n var_things, each well formed |
| `Thing.NewStuffPairs` | src/thing.rs:80-81 | exactly n (key, stuff) pairs; every key is a `rand_string` output and every stuff well formed |
| `Thing.NewBidules` | src/thing.rs:83-85 | exactly n bidules, each well formed, consuming 30·n draws |
| `Thing.NewThing` | src/thing.rs:75-93 | the draws come in source order: count n1 in [1400,1500), the var_things, count n2 in [1500,1800), the (key, stuff) pairs, count n3 in [1500,2000), the bidules, name, surname. There are exactly n1 well-formed var_things and exactly n3 well-formed bidules. `stuff` is `Collect` of the n2 drawn pairs, so it has 1 to n2 keys, each a `rand_string` output with a well-formed stuff. `name` is a `rand_string` output and `surname` is always `Some` of one |
| `Thing.Collect` | src/thing.rs:80-82 | the `collect` into a `HashMap`, one insertion per pair in order: the map's keys are exactly the pairs' keys |
| `Thing.CollectLastWins` | src/thing.rs:80-82 | collecting pairs into a map gives exactly the pairs' keys. Each key is bound to the value of its last pair: no later pair has that key |
| `Thing.CollectSize` | src/thing.rs:80-82 | the map has at least one key when there is a pair and at most one key per pair. It has exactly one key per pair if and only if no key repeats |
| `Thing.ConditionsComplete` | src/thing.rs:57-73 | CONDITIONS has five elements, lists every `Condition` variant, and no variant twice; its first element is `Condition::default()` (`Any`) |
| `Thing.DefaultCondition` | src/thing.rs:59-61 | `Condition::default()` (the `#[default]` variant) is an element of CONDITIONS, its first one |

## Left out

- `Entry::diff`, `throughput_gbps` and `throughput_mbps` (src/durations.rs:46-62) are `f32` arithmetic and are not modelled. `diff` also divides by a duration that may be zero.
- The rendering in `print` is not modelled: the template, `MadSkin`, `terminal_size` and `print!` go through an external terminal renderer. Only its sort step (`SortEntries`) is modelled.
- `Instant::now` and `elapsed` are wall-clock I/O. `Add` takes the elapsed duration as a number of nanoseconds instead of a start instant.
- src/main.rs (`compute`, `main`) is not part of this model. It sequences external encoders and decoders, and its round-trip assertions depend on those libraries.
- The serde attributes (`untagged`, `skip_serializing_if`, `default`, `rename_all`) are not modelled. Their behaviour lives in the serde derive macros, not in these files.
- The `StdRng` algorithm and the internals of `gen_range`, `gen` and `Alphanumeric` are not modelled. Every draw consumes exactly one word of an arbitrary stream, and `GenRange` maps that word into the range with a remainder. The real library may consume several words for one draw (rejection sampling) and maps words differently. No proof relies on the mapping beyond its range.
- The float fields `value` and `coords` hold the raw drawn word. Their distributions and float semantics are not modelled.
- The `stuff` map is a Dafny `map`, with no hashing and no iteration order.
- Durations and source lengths are unbounded `nat`s. Overflow of the additions in `sum` is not modelled: adding to a `Duration` panics on overflow, and adding to the `usize` source length panics or wraps around, depending on the build profile.
- The "depends only on the consumed words" lemmas are proved for the string generators of src/random.rs only. For the constructors of src/thing.rs, determinism holds because each one is a function of the generator state, and no window lemma is proved for them.
