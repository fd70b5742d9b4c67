# HireFireApp middleware, modelled in Dafny

HireFireApp is a Rack middleware that sits in front of a Ruby web
application. For every request it decides whether to answer itself or to hand
the request to the wrapped application. It answers two urls:

- `/hirefireapp/test`: a one-line self-test report that names the job worker
  (Delayed Job or Resque) and the mapper (Redis, Active Record or Mongoid) it
  finds loaded, with an `OK` / `Incomplete` summary;
- `/hirefireapp/<token>/info`: `{"job_count":N}`, the number of jobs waiting to
  run, or `{"job_count":null}` when it cannot tell. The HireFire autoscaling
  service reads this answer.

The model covers `HireFireApp::Middleware` in `lib/hirefireapp/middleware.rb`:

- `router.dfy`: `test?`, `info?` and the order in which `call` asks them
  (module `Router`);
- `detector.dfy`: `worker`, `mapper` and `ok` over a record of which libraries
  `defined?` finds (module `Detector`);
- `counter.dfy`: `job_count`, `count_delayed_job` and `count_resque` over an
  abstract job table, an abstract `Resque.info` hash and an integer clock (module
  `Counter`);
- `reporter.dfy`: the two bodies `each` yields (module `Reporter`);
- `middleware.dfy`: the class itself. `call` stores the request environment in
  the `env` field and returns the middleware as the body; `each` renders from
  that stored field (module `HireFireApp`);
- `text.dfy`, `host.dfy`, `wrappers.dfy`: the Ruby string behaviour the code
  relies on (`=~` against a literal pattern, `Integer#to_s`, `String#to_i`),
  the state of the host process, and `Option`/`Result`.

Each query that can raise a `StandardError` is a `Result`. `job_count` turns
a `Failure` into nil, just as its `rescue => error` clause does. Naming
`Delayed::Job` when it is not loaded raises a `NameError`, which that clause
also rescues.

The model follows the code as written:

- Paths are compared by whole-string equality. A trailing slash, or any other
  text added before or after the url in `REQUEST_PATH`, does not match (`Router.TrailingSlashPassesThrough`,
  `Router.ExtendedTestPathIsNotTest`, `Router.ExtendedInfoPathIsNotInfo`).
- An unset `HIREFIREAPP_TOKEN` is interpolated as the empty string, so
  `/hirefireapp//info` is answered. The info url does not fail closed
  (`Router.UnsetTokenLeavesInfoOpen`).
- `job_count` tries `Delayed::Worker` before `Resque`, but `mapper` tries
  `Redis` with `Resque` first (`Counter.JobCountPrefersDelayedJob`,
  `Detector.MapperPrefersRedis`).
- `worker` looks for `Delayed::Job`, not `Delayed::Worker`
  (`Detector.WorkerIgnoresDelayedWorker`).
- The Resque count is `pending.to_i + working.to_i`. Nothing keeps it from
  being negative when the hash holds negative numbers.

## Model

| member | source | states |
|---|---|---|
| Text.ContainsIffOccurs | lib/hirefireapp/middleware.rb:76 | Matching a backend name against a literal pattern (`=~ /ActiveRecord/`) is true exactly when the pattern occurs at some position of the name |
| Text.IntToStringRoundTrip | lib/hirefireapp/middleware.rb:103 | Reading an integer's decimal rendering back with `to_i` gives that integer, for negative numbers too |
| Text.IntToStringInjective | lib/hirefireapp/middleware.rb:41 | Different counts are rendered as different text |
| Router.PathOf | lib/hirefireapp/middleware.rb:161 | `env['REQUEST_PATH']` is nil exactly when the entry is absent, and otherwise the entry's value |
| Router.InfoPath | lib/hirefireapp/middleware.rb:169-171 | The info url is `/hirefireapp/`, then the token text, then `/info`; its length is the token's plus 18 |
| Router.Classify | lib/hirefireapp/middleware.rb:26-31 | A request is the test route iff its path equals `/hirefireapp/test`. It is the info route iff its path equals the info url for the token. Otherwise it passes through |
| Router.TestAndInfoDisjoint | lib/hirefireapp/middleware.rb:160-171 | For no token does the info url equal the test url, so `test?` and `info?` never both hold |
| Router.InfoPathDeterminesToken | lib/hirefireapp/middleware.rb:170 | Two tokens with the same info url have the same text: only one info url answers for a token |
| Router.TrailingSlashPassesThrough | lib/hirefireapp/middleware.rb:160-171 | The test url and the info url with `/` appended both go to the application |
| Router.ExtendedTestPathIsNotTest | lib/hirefireapp/middleware.rb:161 | Any text added before or after the test url in `REQUEST_PATH` stops the path from being the test route |
| Router.ExtendedInfoPathIsNotInfo | lib/hirefireapp/middleware.rb:170 | Any text before or after the info url stops the path from being the info route |
| Router.MissingPathPassesThrough | lib/hirefireapp/middleware.rb:161 | An environment without `REQUEST_PATH` (nil) is passed through |
| Router.UnsetTokenLeavesInfoOpen | lib/hirefireapp/middleware.rb:170 | With the token unset, or set to "", `/hirefireapp//info` is the info route |
| Detector.StoreOfMatchesBackend | lib/hirefireapp/middleware.rb:76-88 | The store is Active Record iff Active Record is loaded and "ActiveRecord" occurs in the backend name. It is Mongoid iff that fails and Mongoid is loaded and "Mongoid" occurs in the name. The same test appears at lines 115-117 |
| Detector.Worker | lib/hirefireapp/middleware.rb:132-140 | The worker is one of "Delayed Job", "Resque", "Not Found". It is "Delayed Job" iff `Delayed::Job` is loaded, and "Resque" iff that is not loaded and Resque is |
| Detector.Mapper | lib/hirefireapp/middleware.rb:111-125 | The mapper is one of "Redis", "Active Record", "Mongoid", "Not Found". It is "Redis" iff Redis and Resque are both loaded. Otherwise, with `Delayed::Worker` loaded, it is "Active Record" iff the store is Active Record and "Mongoid" iff the store is Mongoid. It is "Not Found" iff Redis and Resque are not both loaded and either `Delayed::Worker` is absent or no store matches the backend |
| Detector.ReportedNameMatchesNotFound | lib/hirefireapp/middleware.rb:148 | Of the names worker and mapper produce, only "Not Found" matches `/Not Found/` |
| Detector.Ok | lib/hirefireapp/middleware.rb:147-153 | The summary is "OK" or "Incomplete". It is "OK" iff neither the worker nor the mapper is "Not Found" |
| Detector.OkIffInstalled | lib/hirefireapp/middleware.rb:111-153 | The summary is "OK" iff a worker library is loaded and either Redis with Resque or `Delayed::Worker` with a matching store is loaded |
| Detector.MapperPrefersRedis | lib/hirefireapp/middleware.rb:112-114 | With Redis and Resque loaded the mapper is "Redis", even when Delayed Job with a matching store is loaded too |
| Detector.WorkerIgnoresDelayedWorker | lib/hirefireapp/middleware.rb:133 | With `Delayed::Worker` and Active Record but no `Delayed::Job`, the mapper is "Active Record", the worker "Not Found" and the summary "Incomplete" |
| Detector.NothingLoadedIsIncomplete | lib/hirefireapp/middleware.rb:111-153 | With no library loaded both names are "Not Found" and the summary is "Incomplete" |
| Counter.WherePending | lib/hirefireapp/middleware.rb:82-92 | The one-condition query never selects more rows than the table holds |
| Counter.WherePendingSelects | lib/hirefireapp/middleware.rb:82-92 | The selection holds each row with `failed_at` NULL and `run_at <= now` exactly as often as the table does, and no other row |
| Counter.ChainedWhereIsPending | lib/hirefireapp/middleware.rb:77-80 | Chaining `where(:failed_at => nil)` and `where('run_at <= ?')` selects the same rows, in the same order, as the one-condition query |
| Counter.PendingCountMonotone | lib/hirefireapp/middleware.rb:80 | For a fixed table the pending count never decreases as `now` advances |
| Counter.PendingCountExample | lib/hirefireapp/middleware.rb:75-94 | Five rows, of which two have failed and one is due in an hour, give a count of 2 |
| Counter.QueryFor | lib/hirefireapp/middleware.rb:76-93 | No query is issued iff no store matches. The Mongoid query is issued iff Active Record does not match and Mongoid does |
| Counter.RunQuery | lib/hirefireapp/middleware.rb:76-93 | The Relation, `:conditions` and Mongoid queries all count exactly the pending rows |
| Counter.CountDelayedJob | lib/hirefireapp/middleware.rb:75-94 | The result is nil iff no store matches. It raises iff a store matches and either `Delayed::Job` is not loaded (NameError) or reading the table raises. Otherwise `Delayed::Job` is loaded and the result is the pending count, at most the number of rows |
| Counter.ToI | lib/hirefireapp/middleware.rb:103 | `nil.to_i` is 0, an integer reads as itself, and a string of digits reads as the number it spells |
| Text.StringToInt | lib/hirefireapp/middleware.rb:103 | A string of digits reads as the number it spells. The empty string, and a string that starts with neither white space, a digit nor a sign, read as 0 |
| Text.DecimalPrefixIsSkipped | lib/hirefireapp/middleware.rb:103 | `"0d12".to_i` is 12 and `"-0d12".to_i` is -12: the `0d` radix prefix is skipped after the sign, for any run of digits |
| Counter.CountResque | lib/hirefireapp/middleware.rb:102-104 | It raises iff `Resque.info` raises |
| Counter.JobCount | lib/hirefireapp/middleware.rb:53-63 | A number is reported only when `Delayed::Worker` or Resque is loaded. With `Delayed::Worker` it needs `Delayed::Job` loaded and a table read without raising, and it lies between 0 and the number of rows. Without it, it needs `Resque.info` read without raising |
| Counter.JobCountPrefersDelayedJob | lib/hirefireapp/middleware.rb:55-56 | With `Delayed::Worker` loaded the count is the table's pending count, whether or not Resque is loaded. It is nil when no store matches, `Delayed::Job` is not loaded, or the query raises |
| Counter.JobCountFallsBackToResque | lib/hirefireapp/middleware.rb:57-58 | Without `Delayed::Worker` but with Resque, the count is `pending.to_i + working.to_i`, or nil when `Resque.info` raises |
| Counter.JobCountNilIff | lib/hirefireapp/middleware.rb:53-63 | The count is nil exactly when no source is loaded, no store matches, `Delayed::Job` is not loaded, or the query raised a `StandardError`, which the `rescue` turns into nil |
| Counter.DelayedJobCountBounded | lib/hirefireapp/middleware.rb:53-94 | A count taken from the table is between 0 and the number of rows |
| Counter.ResqueCountAddsFigures | lib/hirefireapp/middleware.rb:102-104 | pending 3 and working 2 give a count of 5 |
| Counter.ResqueCountReadsStrings | lib/hirefireapp/middleware.rb:102-104 | A pending figure given as the string "3" and a nil working figure give 3 |
| Counter.ResqueCountMissingFigure | lib/hirefireapp/middleware.rb:102-104 | A working figure missing from the hash adds 0 |
| Counter.MissingDelayedJobGivesNil | lib/hirefireapp/middleware.rb:53-80 | With `Delayed::Worker` and a matching Active Record backend but no `Delayed::Job`, the NameError is rescued and the count is nil |
| Text.DigitStringValue | lib/hirefireapp/middleware.rb:103 | A one-digit string reads as that digit |
| Reporter.Report | lib/hirefireapp/middleware.rb:39 | The report line is `[HireFireApp: `, the summary, `] Worker: `, the worker, ` - Mapper: `, the mapper, each piece at its own place |
| Reporter.ReportDeterminesNames | lib/hirefireapp/middleware.rb:39 | For the summaries and worker names the code produces, equal report lines have equal summaries, workers and mappers |
| Reporter.ReportShape | lib/hirefireapp/middleware.rb:39 | The line opens with `[HireFireApp: `, its next two letters are "OK" iff the summary is "OK", and after the summary it names the worker and then the mapper |
| Reporter.TestBody | lib/hirefireapp/middleware.rb:39 | The report opens with `[HireFireApp: `. It reads `[HireFireApp: OK` exactly when `ok` is "OK". After the summary it names the worker found, then ` - Mapper: ` and the mapper found |
| Reporter.TestBodyDeterminesNames | lib/hirefireapp/middleware.rb:39 | The self-test report determines the summary, the worker and the mapper it names |
| Reporter.ReportSaysOkIffFound | lib/hirefireapp/middleware.rb:39 | The report reads `[HireFireApp: OK` exactly when both a worker and a mapper were found |
| Reporter.CountText | lib/hirefireapp/middleware.rb:41 | The count's text starts with `n` (`null`) exactly when the count is nil |
| Reporter.InfoFrame | lib/hirefireapp/middleware.rb:41 | Any non-empty count text framed by `{"job_count":` and `}` stands between them at a fixed place, and the body is `{"job_count":null}` iff the text is `null` |
| Reporter.InfoBody | lib/hirefireapp/middleware.rb:41 | The body is `{"job_count":`, the count's text, then `}`. It equals `{"job_count":null}` iff the count is nil |
| Reporter.InfoBodyInjective | lib/hirefireapp/middleware.rb:41 | The info body determines the count it reports |
| Reporter.ZeroIsReportedAsNumber | lib/hirefireapp/middleware.rb:41 | A count of 0 is reported as `{"job_count":0}`, not as null |
| Reporter.NothingInstalledReport | lib/hirefireapp/middleware.rb:39 | With no library loaded the report is `[HireFireApp: Incomplete] Worker: Not Found - Mapper: Not Found` |
| HireFireApp.Middleware.constructor | lib/hirefireapp/middleware.rb:10-13 | The middleware keeps the application and takes its token from `HIREFIREAPP_TOKEN`, or nil when that is unset |
| HireFireApp.Middleware.Call | lib/hirefireapp/middleware.rb:23-33 | The environment is stored. The test url gets `[200, text/html, self]` and the info url `[200, application/json, self]`. Every other request gets the application's response unchanged |
| HireFireApp.Middleware.Each | lib/hirefireapp/middleware.rb:37-43 | For the stored request it yields the self-test report, the info body for the current count, or nothing |
| HireFireApp.Serve | lib/hirefireapp/middleware.rb:23-43 | Through `call` then `each`, an info request gets status 200. When the job query raises a `StandardError` its body is `{"job_count":null}`. Any other path gets the application's status and body |

## Left out

- `lib/hirefireapp/cli.rb`, `lib/hirefireapp/railtie.rb` and `lib/hirefireapp.rb` are not part of this model. They are a command-line probe that does network I/O and prints, plus framework registration and `require` bootstrap.
- The real database and Redis calls are data: a job table that reads as rows or raises, and a `Resque.info` hash that reads as a map or raises.
- `Resque.info` is called twice in `count_resque`. The model reads one snapshot, so the two calls cannot see different states or raise separately.
- `defined?` is a record of booleans. The model does not tie `ActiveRecord::Relation` to `ActiveRecord`, or `Delayed::Job` to `Delayed::Worker`. Naming `Delayed::Job` while it is not loaded is the `NameError` that `count_delayed_job` raises.
- A `QueryError` stands for a `StandardError`, the class `rescue => error` catches. Other exceptions (`Interrupt`, `NoMemoryError`, `ScriptError`, `SystemExit`, and `Timeout::Error` on Ruby 1.8) are not rescued and propagate out of `job_count`; they are not modelled.
- `Time.now` and `Time.now.utc` are one integer `now`, because they name the same instant.
- `=~` is modelled only for the literal patterns the code uses, as substring containment.
- Counter.ToI: `String#to_i` is modelled with leading white space, a sign, the `0d` / `0D` radix prefix and decimal digits. Underscores between digits, and values that are neither integers, strings nor nil, are not modelled.
- The Rack streaming body protocol is a function returning the chunks `each` would yield.
- HireFireApp.Middleware.Each: it requires that `call` has stored an environment. In Ruby, calling it earlier raises on the nil `@env`.
- The wrapped application is a function from environment to response, so its own side effects are not modelled. The Rack environment keeps only its string entries.
- Concurrent requests sharing the one `@env` field are not modelled.
