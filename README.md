# SSM adapter of the `knowledge` gem, modelled in Dafny

`Knowledge::Adapters::Ssm` reads configuration values from AWS SSM Parameter
Store and hands them to the project's setter. When it is built, it fetches a
snapshot of parameters once. In tree mode (a `root_path` is given) this is a
paginated `get_parameters_by_path` listing. In flat mode it is one
`get_parameter` call per declared variable. `run` then qualifies each
declared path, finds the first snapshot entry with that name, applies the
default-value fallback and calls `setter.set` once per variable.

The model has five modules:

- `Wrappers`: `Option` and `Result`.
- `Values`: Ruby values as a tagged union (`Nil | Bool | Num | Str | Coll`) and `extract_value`.
- `Matching`: parameters, declared variables, path qualification and `detect`.
- `Fetching`: the client, the error classification, the flat fetch, and the paginated listing. The listing is a `while` loop proved against the spec function `Walk`.
- `Adapter`: the setter as a log of calls, and the `Ssm` class with its construction and `run`.

The SSM client is a datatype of two total functions: `getParameter` and
`getParametersByPath(root, token)`. The setter is a class that records each
`set` call. In flat mode the client receives the whole declared value
(`Bare(path)` or `WithDefault(path, default)`), exactly as `fetch_parameters`
passes it.

Behaviour modelled as the code has it:

- `path.sub('/', '')` removes the first `/` wherever it is. So `path/var` under root `/root/` is looked up as `/root/pathvar`, not `/root/path/var`.
- A root path without a trailing `/` contributes nothing to the looked-up name.
- An empty-string root path is truthy in Ruby, so it selects tree mode.
- An empty-string continuation token is truthy as well, so it leads to another request.
- In tree mode, `ParameterNotFound` is not rescued, so it propagates unchanged.

## Model

| member | source | states |
|---|---|---|
| `Values.ExtractValue` | lib/knowledge/adapters/ssm.rb:106-120 | With no default the raw value is returned as it is, even nil or empty. A boolean or number is never replaced. With a default, exactly the blank values (nil, empty string, empty collection) become the default. |
| `Matching.RemoveFirst` | lib/knowledge/adapters/ssm.rb:70 | A string without the character comes back unchanged; otherwise the result is exactly one character shorter. |
| `Matching.RemoveFirstAt` | lib/knowledge/adapters/ssm.rb:70 | When `u` has no `c`, removing the first `c` from `u + [c] + v` gives `u + v`: only the first occurrence is dropped, wherever it is. |
| `Matching.BasePath` | lib/knowledge/adapters/ssm.rb:69 | For a root path ending in `/`, the base plus `/` is that root path. Otherwise the base is empty, and that includes a nil root. |
| `Matching.QualifiedPathStripsOneSeparator` | lib/knowledge/adapters/ssm.rb:69-71 | A declared path `"/" + rest` is looked up as base + `/` + `rest`: one leading separator is stripped, however many there are. |
| `Matching.QualifiedPathWithoutSeparator` | lib/knowledge/adapters/ssm.rb:69-71 | A declared path with no `/` is looked up as base + `/` + path. |
| `Matching.QualifiedPathUnslashedRoot` | lib/knowledge/adapters/ssm.rb:69-71 | A root path that does not end in `/` adds nothing: declared `"/" + rest` is looked up as `"/" + rest`. So root `/root` with `/path/to/variable` looks up `/path/to/variable`. |
| `Matching.QualifiedPathSlashedRoot` | lib/knowledge/adapters/ssm.rb:69-71 | Root `root + "/"` with declared `"/" + rest` is looked up as `root + "/" + rest`: the trailing separator is dropped once. |
| `Matching.QualifiedPathInnerSeparator` | lib/knowledge/adapters/ssm.rb:69-71 | Root `root + "/"` with declared `head + "/" + tail`, where `head` has no `/`, is looked up as `root + "/" + head + tail`. The first `/` is removed wherever it is, so `path/var` under `/root/` becomes `/root/pathvar`. |
| `Matching.QualifiedPath` | lib/knowledge/adapters/ssm.rb:69-71 | The name looked up is the base path, then exactly one `/`, then the declared path with one `/` fewer if it has any. |
| `Matching.Detect` | lib/knowledge/adapters/ssm.rb:71 | Returns none iff no entry has the name. Otherwise it returns an entry with that name at an index no earlier entry with that name precedes: the first match wins. |
| `Matching.LookupValue` | lib/knowledge/adapters/ssm.rb:71 | The value is nil when no entry matches, and otherwise the value of the first matching entry. |
| `Fetching.Rescue` | lib/knowledge/adapters/ssm.rb:162-163 | Keeps the original error as its cause. The result is `SsmError` iff the error is AccessDenied or UnrecognizedClient; any other error propagates unchanged. |
| `Fetching.FetchParameter` | lib/knowledge/adapters/ssm.rb:179-185 | The fetch succeeds iff the parameter is found, or is not found with `raise_not_found` off; every other error fails it. A found parameter is returned. Not-found gives nil iff `raise_not_found` is off. A failure carries the client's error; it is `SsmError` iff that error is access denied, unrecognized client, or not-found with `raise_not_found` on. |
| `Fetching.FetchEach` | lib/knowledge/adapters/ssm.rb:130 | Succeeds iff every per-variable fetch succeeds. The result then has one entry per variable, in order. On failure the error is that of the first failing variable, and every earlier fetch succeeded. |
| `Fetching.Compact` | lib/knowledge/adapters/ssm.rb:130 | Is never longer than its input. It holds exactly the present values. With no nil in the input it is the values in order. `[nil]` gives nothing and a single present value gives that value. |
| `Fetching.CompactAppend` | lib/knowledge/adapters/ssm.rb:130 | Compacting a concatenation concatenates the compacted parts. With the one-element cases this fixes order and multiplicity. |
| `Fetching.FetchParameters` | lib/knowledge/adapters/ssm.rb:129-131 | Succeeds iff every per-variable fetch succeeds. A failure is the first failing fetch's error. The snapshot is at most one entry per variable, and each of its entries was found by the call for some variable. |
| `Fetching.FetchEachSnoc` | lib/knowledge/adapters/ssm.rb:130 | Mapping over one more variable appends that variable's fetch result, unless an earlier fetch or this one fails. |
| `Fetching.FlatFetchSnoc` | lib/knowledge/adapters/ssm.rb:129-131 | The snapshot for `variables + [v]` is the snapshot for `variables`, followed by `v`'s parameter when found, and nothing when not found. A failure of either is the result. So entries come in declaration order, one per found variable. |
| `Fetching.FlatFetchOmitsMissing` | lib/knowledge/adapters/ssm.rb:129-131 | With `raise_not_found` off and no error other than not-found, the flat fetch succeeds. The snapshot holds exactly the parameters the client found: missing ones are omitted. |
| `Fetching.FlatFetchRaisesMissing` | lib/knowledge/adapters/ssm.rb:179-185 | With `raise_not_found` on, a not-found after only successful fetches fails the flat fetch with `SsmError(ParameterNotFound)`. |
| `Fetching.Walk` | lib/knowledge/adapters/ssm.rb:149-159 | A listing that ends takes between one and `fuel` requests, and its first request carries the starting token. The full request protocol is `WalkProtocol`. |
| `Fetching.WalkProtocol` | lib/knowledge/adapters/ssm.rb:144-164 | The first request carries the starting (nil) token, and each later request carries the token returned by the page before. The listing continues exactly while that token is non-nil. On success the last page has a nil token, the result is all pages concatenated in request order, and there is one page per request. On failure the last request was refused, its error is classified by `Rescue`, and the pages already fetched are discarded. |
| `Fetching.WalkFuelMonotone` | lib/knowledge/adapters/ssm.rb:149-159 | Once a listing has ended within some number of requests, a larger bound gives the same listing, so the bound does not change the result. |
| `Fetching.FetchRecursiveParameters` | lib/knowledge/adapters/ssm.rb:144-164 | The `while` loop over continuation tokens returns exactly the outcome and the request tokens of `Walk` from a nil token. |
| `Fetching.FetchSnapshot` | lib/knowledge/adapters/ssm.rb:59 | With a root path, even an empty one, the snapshot is the tree listing's outcome. Without one it is the flat fetch. |
| `Fetching.SinglePageListing` | spec/knowledge/adapters/ssm_spec.rb:140-151 | When the first page has a nil token, one request is made and the result is that page. |
| `Fetching.EmptyTokenContinues` | lib/knowledge/adapters/ssm.rb:149 | An empty-string token is truthy, so it is sent back for a second page and both pages are returned, in order. |
| `Fetching.DeniedListingFails` | lib/knowledge/adapters/ssm.rb:162-163 | Access denied on the second page gives `SsmError(AccessDenied)` after two requests, and the first page is discarded. |
| `Adapter.Setter.Set` | lib/knowledge/adapters/ssm.rb:73 | Each `set` call appends exactly one `(name, value)` pair to the setter's log. |
| `Adapter.Resolution` | lib/knowledge/adapters/ssm.rb:68-73 | One variable's call: it carries the variable's name. Its value is the value found under the qualified path or the declared default, and for a bare path it is the value found. |
| `Adapter.Assignments` | lib/knowledge/adapters/ssm.rb:67-75 | One call per declared variable, with the variables' names in declaration order. |
| `Adapter.AssignmentsAt` | lib/knowledge/adapters/ssm.rb:67-75 | `run`'s calls are one per declared variable, in declaration order. Call `k` carries variable `k`'s name and the fallback of the first snapshot value named by its qualified path, or of nil when none is. |
| `Adapter.RunSetsFoundValue` | spec/knowledge/adapters/ssm_spec.rb:89-118 | A bare declared path `"/" + rest` that the snapshot holds is set to the value found. This holds with no root path and with one not ending in `/`, as in the tests' `/root` with `/path/to/variable`. |
| `Adapter.RunAppliesDefaults` | lib/knowledge/adapters/ssm.rb:68-73 | With a declared default, an empty string found in the snapshot is set as the default, while `false` is set as `false`. |
| `Adapter.Ssm.constructor` | lib/knowledge/adapters/ssm.rb:56-59 | Stores the given client, `raise_not_found`, root path, snapshot, variables and setter. |
| `Adapter.Ssm.Create` | lib/knowledge/adapters/ssm.rb:53-60 | The stored client is the client option, or the default client when it is absent, and it is the one that fetches the snapshot. `raise_not_found` defaults to false. The snapshot is fetched once: the tree listing iff a root path is given, else the flat fetch. A failed fetch yields that failure and no adapter. |
| `Adapter.Ssm.Run` | lib/knowledge/adapters/ssm.rb:67-75 | The setter's log grows by exactly `Assignments` of the root path, snapshot and variables, and nothing else changes. |

## Left out

- Loading the AWS SDK (`aws-sdk` with the `aws-sdk-ssm` fallback) is a foreign library and is not modelled.
- Constructing `Aws::SSM::Client.new` is a foreign library call. It is represented by the `defaultClient` parameter, which is used when no client option is given. Its lazy construction is not modelled.
- Registering the adapter with `Knowledge::Learner` belongs to the framework's plugin registry, which is not part of this model.
- `lib/knowledge/ssm.rb` declares `SsmError` and nothing else. It is the `SsmError` constructor of `Fetching.Failure`.
- Option lookup by string or symbol key is replaced by one typed `Params` record with optional fields. `raise_on_parameter_not_found` is a boolean, so a truthy non-boolean option value is not modelled.
- The text of error messages, `"[class]: message"`, is not modelled. An error keeps only its class, as `cause`.
- Decryption (`with_decryption: true`) and parameter metadata are handled by the remote service, so they are not modelled.
- Floating-point numbers are not modelled. A number is an integer, which is enough to decide `to_f == self`.
- Declared values are either a string path or a `[path, default]` pair. Other shapes (a non-string path, arrays of other lengths) are not modelled. Neither is the uniqueness of names, which holds in a Ruby hash but is not required of the model's sequence of variables.
- Fetching.FetchRecursiveParameters: terminates only for a store that ends the listing. The ghost `bound` and its precondition exclude a store that never returns a nil token, on which the Ruby loop never ends.
- Adapter.Ssm.Create: carries the same `bound` precondition in tree mode, for the same reason.
- The request count `ceil(total / pageSize)` depends on the store's page size, which is the server's choice. The model proves instead that there is one request per page returned.
- The RSpec cases in spec/knowledge/adapters/ssm_spec.rb that raise `UnrecognozedClientException` use a misspelled class that the adapter does not rescue.
- Concurrency, timeouts and retries: the adapter has none, so none are modelled.
