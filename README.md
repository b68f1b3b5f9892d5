# news-app-fe core, modelled in Dafny

This project models the small amount of logic in the news-reading web client.
The rest of the client is React markup. The model covers four source files:

- **Word capitalisation** (`src/util/util.js`, module `Words`).
  `capitalizeWords` splits a text on single spaces and upper-cases the first
  character of every non-empty word. The model writes it as split/map/join. It
  proves the result equal to an independent character scan, `Capitalized`.
  From that it derives length, space positions, word count, unchanged tails,
  capitalised word starts and idempotence.
- **Interest selection** (`src/pages/IndustriesSelection.js`, module
  `Industries`). This covers the icon path of an industry, the sub-industry
  toggle, the case-insensitive search filter, the failed-image fallback and
  the "at least 3" gate on Get News. The screen's `useState` variables are a
  `Screen` record, and each handler is an `Event` that `Step` maps to a new
  record.
- **Speech playback** (`src/util/text-to-speech.js`, module `Speech`).
  `TextToSpeech` is a class whose methods update `isPlaying`, `utterance` and
  `voices` in place. The platform's `speechSynthesis` is a `SpeechEngine`
  object. It records the calls it receives (`cancel`, `pause`, `resume`,
  `speak`) and reports its voice list and `paused` flag. The utterance events
  `onstart`, `onend` and `onerror`, and `onvoiceschanged`, are methods that the
  environment calls. Each event method returns whether the caller's callback
  was invoked.
- **API data shaping** (`src/services/api.js`, module `Api`). This covers the
  non-ok status rule shared by the three fetch functions and the `industries`
  object → numbered records transform. It also covers the defaulted
  `URLSearchParams` entries of the article search. Each fetch function takes
  the reply it would have received as a parameter.

`Strings` holds the ASCII case mapping and `includes`. `Wrappers` holds
`Option` and `Result`.

Some behaviours of the code are easy to miss:

- `speak` stops the previous utterance only when `isPlaying` is true. That
  flag is set only by an utterance's `onstart`. So two `speak` calls made
  before the first `onstart` cancel nothing, and both utterances are queued
  on the engine. `SpeakTwiceBeforeStart` shows this.
- `stop()` calls `cancel` but never calls the caller's `onEnd` itself.

## Model

| member | source | states |
|---|---|---|
| `Words.CapitalizeWords` | src/util/util.js:6-16 | An absent or empty text gives `""`. Any other text gives the character scan `Capitalized(text, true)`. |
| `Words.Split` | src/util/util.js:10 | `split(' ')` always yields at least one piece, and no piece contains a space. |
| `Words.Join` | src/util/util.js:15 | `join(' ')` starts with the first word, followed by a space when there are more words; `SplitJoin` is its inverse. |
| `Words.CapitalizeWord` | src/util/util.js:11-14 | The map callback keeps the word's length and introduces no space. |
| `Words.CapitalizeAll` | src/util/util.js:11-14 | The mapped list has as many words as the input, the k-th being the k-th word capitalised. |
| `Words.CapitalizedBySplit` | src/util/util.js:9-15 | The split/map/join pipeline equals the character scan that upper-cases each character at a word start. |
| `Words.RestCapitalizedBySplit` | src/util/util.js:9-15 | Joining the first piece as is with the rest capitalised equals the scan that starts outside a word. |
| `Words.CapitalizedAt` | src/util/util.js:12-13 | The scan keeps the length. It upper-cases exactly the characters at a word start and copies every other character. |
| `Words.CapitalizeWordsAt` | src/util/util.js:2-15 | Length is kept and spaces stay in place. A word-start character becomes its upper-case form and is never a lower-case letter. All other characters, i.e. each `word.slice(1)`, are unchanged. |
| `Words.JoinCons` | src/util/util.js:15 | Prefixing a character to the first word prefixes it to the joined text. |
| `Words.SplitWord` | src/util/util.js:10 | A text without spaces splits into itself alone. |
| `Words.SplitAfterWord` | src/util/util.js:10 | Splitting `w + " " + u` for a space-free `w` gives `w` then the pieces of `u`. |
| `Words.SplitJoin` | src/util/util.js:10-15 | `split(' ')` undoes `join(' ')` when no piece contains a space. |
| `Words.WordsPreserved` | src/util/util.js:9-15 | The output splits into the input's words, each capitalised: the same count and order, with empty words from adjacent spaces still empty. |
| `Words.CapitalizedIdempotent` | src/util/util.js:9-15 | Scanning the scan's output changes nothing. |
| `Words.CapitalizeWordsIdempotent` | src/util/util.js:9-15 | `capitalizeWords(capitalizeWords(t)) == capitalizeWords(t)`. |
| `Strings.ToUpper` | src/util/util.js:13 | The result is never a lower-case ASCII letter. Lower-case letters become upper-case, other characters are unchanged, and a space stays a space. |
| `Strings.ToLower` | src/pages/IndustriesSelection.js:8 | The result is never an upper-case ASCII letter. Upper-case letters become lower-case, other characters are unchanged. |
| `Strings.LowerAll` | src/pages/IndustriesSelection.js:54-55 | `toLowerCase` keeps the length and lower-cases each character. |
| `Strings.LowerAllAppend` | src/pages/IndustriesSelection.js:8 | Lower-casing distributes over concatenation. |
| `Strings.LowerAllIdempotent` | src/pages/IndustriesSelection.js:54-55 | Lower-casing an already lower-cased string changes nothing. |
| `Strings.Contains` | src/pages/IndustriesSelection.js:54-55 | `includes` never finds a longer substring and always finds a prefix; `ContainsIff` characterises it fully. |
| `Strings.OccursInTail` | src/pages/IndustriesSelection.js:54-55 | An occurrence at position i ≥ 1 is an occurrence in the tail at i - 1. |
| `Strings.ContainsIff` | src/pages/IndustriesSelection.js:54-55 | `includes` holds exactly when the substring occurs at some position. |
| `Strings.ContainsEmpty` | src/pages/IndustriesSelection.js:54 | Every string includes the empty string. |
| `Api.CheckReply` | src/services/api.js:20-23 | The result is ok exactly for a response with status 200-299, and then it carries the body. A non-ok status throws an error carrying that status. A rejected fetch is rethrown. |
| `Api.IsOk` | src/services/api.js:20 | `response.ok` holds exactly for a status in the 2xx class. |
| `Api.FetchArticle` | src/services/api.js:5-33 | `fetchArticle` returns data exactly on an ok response; a non-ok status is an article error carrying the status. |
| `Api.Decimal` | src/services/api.js:22 | The rendered status is a non-empty run of decimal digits. |
| `Api.DecimalRoundTrip` | src/services/api.js:22 | Reading the rendered status back gives the status. |
| `Api.MessageCarriesStatus` | src/services/api.js:52 | The error message is `Failed to fetch <endpoint>: ` followed by digits that read back as the status code. |
| `Api.Message` | src/services/api.js:22 | A rejection keeps its reason. A status error's message starts with `Failed to fetch <endpoint>: ` and has the status after it. |
| `Api.Number` | src/services/api.js:60-64 | The k-th record has id `first + k` and the k-th key's name and value. |
| `Api.TransformIndustries` | src/services/api.js:59-68 | A missing or falsy `industries` gives `[]`; otherwise there is one record per key. |
| `Api.LookupAt` | src/services/api.js:63 | With distinct keys, `obj[name]` for the k-th key is the k-th value. |
| `Api.TransformIndustriesRecords` | src/services/api.js:60-64 | One record per key, in key order. Ids are exactly 1..n. Each record's `subIndustries` is `data.industries[name]`. |
| `Api.FetchIndustries` | src/services/api.js:35-74 | Records are returned exactly on an ok response: `[]` without industries, else one per key. A non-ok status is an industries error carrying the status. |
| `Api.OrElse` | src/services/api.js:82-85 | An absent or `''` value is replaced by the fallback. Any other value is returned unchanged. The result is empty only if the fallback is. |
| `Api.SearchQuery` | src/services/api.js:80-90 | The query has exactly the nine keys of the source, in its order. |
| `Api.GetFirst` | src/services/api.js:80-90 | `get(key)` returns the value of the first entry stored under `key`. |
| `Api.SearchQueryKeys` | src/services/api.js:80-90 | The nine keys are distinct, and `get` finds a value under each of them. |
| `Api.SearchQueryDefaults` | src/services/api.js:82-85 | `industry` and `keyword` default to `''`, and `india_focus` and `business_only` to `'true'`, when absent or empty. Otherwise the given value is sent unchanged. Both cases of the two flags are stated outright. |
| `Api.SearchQueryFixed` | src/services/api.js:81-89 | `q=''`, `page='1'`, `limit='10'`, `sort_by='published_date'` and `sort_order='desc'` are always sent. |
| `Api.FetchArticles` | src/services/api.js:76-118 | `fetchArticles` sends the defaulted query. It returns data exactly on an ok response; a non-ok status is an articles error carrying the status. |
| `Industries.IconPath` | src/pages/IndustriesSelection.js:7-9 | The icon path always starts with `/industry-icons/` and ends with `.png`, and its middle contains only `[a-z0-9]`. |
| `Industries.KeepSlugChars` | src/pages/IndustriesSelection.js:8 | The regular-expression replace keeps only `[a-z0-9]` and never lengthens the text. |
| `Industries.Slug` | src/pages/IndustriesSelection.js:8 | The file-name part contains only `[a-z0-9]` and is never longer than the name. |
| `Industries.KeepSlugCharsAppend` | src/pages/IndustriesSelection.js:8 | The replace distributes over concatenation. |
| `Industries.KeepSlugCharsOfSlug` | src/pages/IndustriesSelection.js:8 | Text already in `[a-z0-9]` passes through unchanged. |
| `Industries.SlugAppend` | src/pages/IndustriesSelection.js:8 | The file-name part of a concatenation is the concatenation of the parts. |
| `Industries.IconPathIgnoresCase` | src/pages/IndustriesSelection.js:8 | Names differing only in letter case get the same icon path. |
| `Industries.IconPathIgnoresPunctuation` | src/pages/IndustriesSelection.js:8 | Inserting a non-alphanumeric character anywhere in a name leaves its icon path unchanged. |
| `Industries.IconPathOfSlug` | src/pages/IndustriesSelection.js:8 | Using the path's middle part as a name gives the same path. |
| `Industries.DefaultIconIsNoIconPath` | src/pages/IndustriesSelection.js:135-137 | The fallback icon is never an industry's icon path. |
| `Industries.RemoveAll` | src/pages/IndustriesSelection.js:38 | The filter removes every occurrence of the item. It keeps the others in order (a subsequence) and with their counts unchanged (the multiset minus the item). |
| `Industries.Toggle` | src/pages/IndustriesSelection.js:35-43 | The item is in the result exactly when it was absent. An absent item is appended at the end. A present one is removed everywhere, the rest keeping order and counts. |
| `Industries.RemoveAllKeepsNoDuplicates` | src/pages/IndustriesSelection.js:38 | Filtering a duplicate-free list leaves it duplicate-free. |
| `Industries.ToggleKeepsNoDuplicates` | src/pages/IndustriesSelection.js:36-42 | A toggle keeps a duplicate-free selection duplicate-free. |
| `Industries.RemoveAllAppended` | src/pages/IndustriesSelection.js:38-40 | Removing an item just appended to a list without it restores the list. |
| `Industries.ToggleTwiceRestores` | src/pages/IndustriesSelection.js:36-42 | Toggling an absent item twice restores the original selection. |
| `Industries.ToggleTwiceMovesToEnd` | src/pages/IndustriesSelection.js:36-42 | Toggling a present item twice removes it and puts it back once, at the end. |
| `Industries.FilterIndustries` | src/pages/IndustriesSelection.js:53-56 | The filtered list is an order-preserving subsequence. An industry is in it exactly when it is listed and its name or some sub-industry includes the query, ignoring case. |
| `Industries.FilterEmptyQueryKeepsAll` | src/pages/IndustriesSelection.js:53-56 | An empty query keeps every industry. |
| `Industries.MatchesQuery` | src/pages/IndustriesSelection.js:54-55 | An empty query matches every industry. |
| `Industries.MatchesQueryIgnoresCase` | src/pages/IndustriesSelection.js:54-55 | Matching is the same for a query and its lower-cased form. |
| `Industries.RecordFailedImage` | src/pages/IndustriesSelection.js:49-51 | The failed set gains the name and nothing else. |
| `Industries.IconSource` | src/pages/IndustriesSelection.js:135-137 | The icon is the fallback exactly when the name is in the failed set. Otherwise it is `getIndustryIconPath(name)`. |
| `Industries.FailedImageFallback` | src/pages/IndustriesSelection.js:49-51 | After a failure, the name's icon is the fallback. Recording it again changes nothing. Other names keep their icon, which is still their icon path when they had not failed. |
| `Industries.DistinctCount` | src/pages/IndustriesSelection.js:190 | A duplicate-free selection has as many distinct items as elements. |
| `Industries.GetNewsEnabled` | src/pages/IndustriesSelection.js:190 | The button is enabled exactly when at least 3 sub-industries are selected. |
| `Industries.GetNewsGate` | src/pages/IndustriesSelection.js:190 | For a duplicate-free selection, Get News is enabled exactly when 3 or more distinct sub-industries are selected. |
| `Industries.Initial` | src/pages/IndustriesSelection.js:13-18 | The screen starts loading, with no error, no industries, no selection, an empty search query and no failed images. |
| `Industries.ArrayOrEmpty` | src/pages/IndustriesSelection.js:24 | Non-array data is replaced by `[]`; an array is kept. |
| `Industries.Step` | src/pages/IndustriesSelection.js:20-51 | Only a toggle changes the selection, and it changes it by `Toggle`. Only a load result ends loading. A resolved load installs `ArrayOrEmpty` of the data and keeps the error. A thrown load sets the load error and keeps the industries. An image failure adds the name to the failed set, and typing replaces the query. Nothing else changes those fields. |
| `Industries.Run` | src/pages/IndustriesSelection.js:20-51 | Over any sequence of events, loading never restarts once ended, and ends if any load result arrives. Failed images are never forgotten. |
| `Industries.RunKeepsNoDuplicates` | src/pages/IndustriesSelection.js:35-43 | Under any sequence of events, the selection never holds an item twice. |
| `Industries.ReachableGetNewsGate` | src/pages/IndustriesSelection.js:190 | In every state reachable from the initial one, Get News is enabled exactly when 3 or more distinct sub-industries are selected. |
| `Industries.LoadFromApi` | src/pages/IndustriesSelection.js:20-30 | An ok reply installs the numbered records with no error; the `Array.isArray` guard never discards them. Any other reply shows the load error and keeps the list empty. Loading ends either way. |
| `Industries.Chips` | src/pages/IndustriesSelection.js:150-166 | There is one chip per sub-industry, highlighted exactly when it is selected. |
| `Industries.Cards` | src/pages/IndustriesSelection.js:130-146 | There is one card per industry, with its name, its icon or the fallback, and its chips. |
| `Industries.Render` | src/pages/IndustriesSelection.js:58-72 | A spinner shows exactly while loading, then the error text if there is one. Otherwise the screen shows the `Cards` of the filtered industries, with Get News enabled exactly at 3 or more selected. |
| `Speech.UsEnglishVoices` | src/util/text-to-speech.js:38-40 | The filter keeps exactly the voices whose `lang` includes `en-US`. |
| `Speech.IsUsEnglish` | src/util/text-to-speech.js:39 | Only a `lang` of 5 or more characters qualifies, and any `lang` starting with `en-US` does. |
| `Speech.ChooseVoice` | src/util/text-to-speech.js:36-48 | No voice exactly for an empty list; otherwise the chosen voice is one of the list. |
| `Speech.FirstUsEnglish` | src/util/text-to-speech.js:38-43 | The first filtered voice is the earliest `en-US` voice. |
| `Speech.ChooseVoiceCases` | src/util/text-to-speech.js:36-48 | The choice is the earliest `en-US` voice. Without one it is `voices[0]`, and there is none for an empty list. |
| `Speech.Utterance.constructor` | src/util/text-to-speech.js:33 | A new utterance carries the text and no voice. |
| `Speech.TextToSpeech.constructor` | src/util/text-to-speech.js:5-11 | A new instance is not playing and has no utterance, no voices and `voiceIndex` 0. |
| `Speech.TextToSpeech.Init` | src/util/text-to-speech.js:13-24 | The voices are those `getVoices()` reports. The `onvoiceschanged` reload is installed only when that list is empty. |
| `Speech.TextToSpeech.OnVoicesChanged` | src/util/text-to-speech.js:20-22 | The handler reloads the voices from the engine. |
| `Speech.TextToSpeech.Speak` | src/util/text-to-speech.js:26-73 | `cancel` comes first only if playing, then `speak` of a fresh utterance. The utterance has the text, the `ChooseVoice` voice and the caller's callbacks. `isPlaying` is false afterwards. |
| `Speech.TextToSpeech.Stop` | src/util/text-to-speech.js:75-80 | `cancel` is sent and `isPlaying` cleared only if playing; otherwise nothing changes. |
| `Speech.TextToSpeech.Pause` | src/util/text-to-speech.js:82-86 | `pause` is forwarded only while playing. |
| `Speech.TextToSpeech.Resume` | src/util/text-to-speech.js:88-92 | `resume` is forwarded only while the engine reports `paused`. |
| `Speech.TextToSpeech.Speaking` | src/util/text-to-speech.js:94-96 | The getter always equals `isPlaying`. |
| `Speech.TextToSpeech.OnStart` | src/util/text-to-speech.js:55-58 | `onstart` sets `isPlaying` and calls `onStart` exactly when it was supplied. |
| `Speech.TextToSpeech.OnEnd` | src/util/text-to-speech.js:60-63 | `onend` clears `isPlaying` and calls `onEnd` exactly when it was supplied. |
| `Speech.TextToSpeech.OnError` | src/util/text-to-speech.js:65-69 | `onerror` clears `isPlaying` and calls `onEnd` exactly when it was supplied. |
| `Speech.SpeakTwiceBeforeStart` | src/util/text-to-speech.js:27-30 | Two `speak` calls before any `onstart` cancel nothing. Both utterances reach the engine in order. |
| `Speech.SpeakWhilePlaying` | src/util/text-to-speech.js:82-86 | `pause` before `onstart` is dropped. After `onstart`, `pause` is forwarded, and the next `speak` sends `cancel` before its own utterance. |

## Left out

- Swipe carousel, drag thresholds and the fallback speech engine with its timeout: none of them exist in the source files.
- Markup, styling and layout of the UI components; the screen's content (spinner, error text, cards, chips, button state) is modelled by `Industries.Render`. The other screens (`Article-view.js`, `LanguageSelection.js`, `Login.js`, `Dashboard.js`, `Splash.js`, `FetchingNews.js`) and the shared containers are presentational, or are navigation timers.
- Routing and navigation (`handleGetNews`, `App.js`) are browser plumbing.
- The network exchange is an input, not modelled. This covers `fetch`, request headers, CORS mode, `response.json()` and console logging.
- URL construction (`API_BASE_URL`, `/news/${articleId}`) and the percent-encoding of `URLSearchParams.toString()` are not modelled. The query is modelled as its ordered key/value entries.
- `fetchIndustries` input shape: `data.industries` is modelled as absent/falsy or an object whose values are string lists. The model does not cover a truthy non-object `industries` value, non-array values, or a `null` body (which throws a `TypeError`). Key order is taken as given, although JavaScript enumerates integer-like keys first.
- `fetchArticles` parameters are modelled as strings or absent only. A non-string value, such as a boolean `false` that `||` replaces with `'true'`, is not modelled.
- Words.CapitalizeWords: upper-casing covers ASCII letters only. JavaScript's `toUpperCase` also maps other letters and can change the length (`ß` → `SS`).
- Industries.IconPath: lower-casing covers ASCII letters only. JavaScript's `toLowerCase` also maps other letters.
- Speech: `rate`/`pitch` floating-point settings, audio output and the module-level singleton instance are not modelled. `voiceIndex` is kept as a field but never read, as in the source.
- Speech.TextToSpeech.Resume: the engine's `paused` flag is platform state. The model reads it but does not decide how `pause`, `resume` or `cancel` change it.
- Speech.TextToSpeech.OnStart: the event methods accept any utterance. The model does not restrict which utterance fires events, or in what order, since that is up to the platform's event loop.
- Speech.TextToSpeech.OnVoicesChanged: the model does not track which instance installed the handler on the shared engine.
