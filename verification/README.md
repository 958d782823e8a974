# Scheme Saathi in Dafny

A model of the core of Scheme Saathi, a chatbot that recommends Indian
government welfare schemes. The model covers these parts:

- **Profile dialogue.** The console dialogue that collects a citizen profile
  (name, state, gender, caste, occupation, category, income, optional extra
  details), in both of its variants.
- **Search pipeline.**
  - The profile file is loaded and sanitised.
  - A search query is written, with a deterministic fallback.
  - Index matches are normalised, and a placeholder scheme id is made when a
    match has none.
  - The schemes are filtered by state and re-ranked in batches by
    language-model scores.
  - The result is saved.
- **Display agent.** It reloads saved recommendations, looks up a scheme's
  full details, and runs the three-state conversation (`list_schemes`,
  `select_detail`, `exit`).
- **Front ends.** The Flask front end's `/submit` and `/chat` handlers, and the
  console workflow that chains the three agents.
- **Chunker.** The sliding-window splitter that cuts the scheme document into
  overlapping chunks before they are embedded.

External services become parameters of the functions that call them:

- the language model's reply, or the exception it raises;
- the index matches;
- the MD5 digest, read as an integer;
- `json.loads` of model output;
- the SQLite rows.

Python exceptions are `Failure` values of a `Result` type. Python's dynamic
values are a `Json` datatype, with Python truthiness and `str()`.

Modules:

| module | file |
|---|---|
| `Wrappers` | wrappers.dfy |
| `Text` | text.dfy |
| `Seqs` | seqs.dfy |
| `PyJson` | pyjson.dfy |
| `Schemes` | schemes.dfy |
| `SchemeSearch` | search.dfy |
| `Ranking` | ranking.dfy |
| `SchemeDisplay` | display.dfy |
| `Checks` | checks.dfy |
| `WebApp` | webapp.dfy |
| `Cli` | cli.dfy |
| `ProfileAgent` | profile.dfy |
| `QueryAgent` | query.dfy |
| `Chunking` | chunking.dfy |

Three behaviours of the code are easy to overlook, and the model keeps them:

- **The fallback query can be empty.** The profile values are sanitised
  before the fallback query is built, so a profile whose values are all
  punctuation yields the empty query (`SchemeSearch.FallbackQueryCanBeEmpty`).
- **Re-ranking can raise.** `int(score)` runs outside the `try`, so a reply
  such as `["high"]` makes the whole search fail (`Ranking.IntsOf`,
  `Ranking.Rerank`).
- **A bad placeholder id empties the retrieval.** A match with no id whose
  `state` is not a string makes placeholder synthesis raise. That exception
  is caught by the retrieval's `except`, so the whole retrieval returns
  nothing (`SchemeSearch.SearchIndexAbortsOnBadState`).

## Model

| member | source | states |
|---|---|---|
| Text.ParseIntOfDecimal | app.py:107-114 | `int(str(n)) == n` for every integer, so the scheme number echoed in the apology is the one parsed |
| Text.Format04RoundTrip | scheme_search_agent.py:158-159 | the `04d` rendering of a hash below 10000 has exactly four digits that read back as the hash |
| Text.PrefixSlice | scheme_search_agent.py:232 | `ranked[:top_k]` has `min(top_k, n)` items for non-negative `top_k`, drops the last `-top_k` for negative `top_k`, and is always a prefix |
| Schemes.SynthesizeId | scheme_search_agent.py:153-159 | synthesising a placeholder id succeeds exactly when the state is a string; a list state raises AttributeError, any other non-string raises TypeError |
| Schemes.SynthesizedIdShape | scheme_search_agent.py:153-159 | the placeholder id is `SCH-`, the upper-cased first three characters of the state, `-`, and four digits worth the MD5 value mod 10000 |
| Schemes.SynthesizeIdDeterministic | scheme_search_agent.py:154-158 | the placeholder depends on the scheme name only through its `str()` |
| Schemes.RankedToJson | scheme_search_agent.py:222-227 | a re-ranked record is a dict with exactly id, llm_score, pinecone_score and metadata, and its metadata has the seven scheme fields |
| SchemeSearch.SanitizeInput | scheme_search_agent.py:68-72 | a non-string sanitises to "", and every character kept is a word character, whitespace, `.`, `,` or `-` |
| SchemeSearch.SanitizeInputCorrect | scheme_search_agent.py:68-72 | the sanitised text is a subsequence of the input that keeps exactly the allowed characters; sanitising twice changes nothing; clean text is unchanged |
| SchemeSearch.LoadUserDetails | scheme_search_agent.py:74-87 | loading succeeds exactly when the file holds an object with state, gender, occupation and income, and then returns the sanitised fields with a caste key added |
| SchemeSearch.LoadUserDetailsValues | scheme_search_agent.py:85-86 | each loaded value is the sanitised `str()` of the stored one; caste falls back to category and then to "" |
| SchemeSearch.LoadUserDetailsRejects | scheme_search_agent.py:80-84 | a profile lacking a required key fails with exactly the missing keys, in the order they are required |
| SchemeSearch.LoadedProfileHasCaste | scheme_search_agent.py:86 | every loaded profile has a caste, so the fallback's `'all castes'` default never applies |
| SchemeSearch.GenerateQuery | scheme_search_agent.py:113-128 | the query is the model's stripped reply, or the fallback when the call raises |
| SchemeSearch.FallbackQueryCorrect | scheme_search_agent.py:120-128 | every non-empty profile field occurs in the fallback, and the fallback is empty exactly when all six fields are empty |
| SchemeSearch.FallbackQueryCanBeEmpty | scheme_search_agent.py:85-128 | a loadable profile whose every value is `@` sanitises to blanks, so the fallback query is "" |
| SchemeSearch.FindId | scheme_search_agent.py:146-152 | the id is the value of the first candidate key present, and none is found exactly when no candidate key is present |
| SchemeSearch.ResolveId | scheme_search_agent.py:146-165 | the id is `str()` of the first id key's value; when no key is present or that value is `None` the placeholder is synthesised, and resolving fails exactly then with a non-string state |
| SchemeSearch.NullIdSynthesized | scheme_search_agent.py:146-159 | an id key holding `None` gets the synthesised `SCH-` placeholder, never the text "None" |
| SchemeSearch.NormalizeAllIsFilterMap | scheme_search_agent.py:140-173 | normalising succeeds exactly when every named match normalises, and then yields the named matches normalised in order |
| SchemeSearch.SearchIndexCorrect | scheme_search_agent.py:130-178 | retrieval returns either nothing or one candidate per named match, in order, keeping its id, score and truthy name |
| SchemeSearch.SearchIndexAbortsOnBadState | scheme_search_agent.py:153-159 | a named match with no id and a non-string state empties the whole retrieval |
| SchemeSearch.GeoFilterCorrect | scheme_search_agent.py:267-272 | the state filter keeps, in order, exactly the candidates whose state equals the user's ignoring case or names all India, central or nationwide; filtering twice changes nothing |
| SchemeSearch.AllIndiaKept | scheme_search_agent.py:270-271 | an "All India" scheme is kept for every user |
| SchemeSearch.KarnatakaKeptOnlyForKarnataka | scheme_search_agent.py:267-272 | a Karnataka scheme is kept exactly for users whose state lower-cases to "karnataka" |
| SchemeSearch.TelanganaExample | scheme_search_agent.py:267-272 | of a Telangana and a Kerala scheme, a Telangana user keeps only the first |
| SchemeSearch.SavedJson | scheme_search_agent.py:234-250 | the saved file is a list with one flat record per re-ranked scheme, in order |
| SchemeSearch.SearchSchemesSteps | scheme_search_agent.py:258-280 | a successful search loaded the profile, saved exactly what it returns, and returns either nothing or the re-ranking of the state-filtered candidates |
| SchemeSearch.LocalNamedAndMatching | scheme_search_agent.py:262-272 | every candidate reaching the re-ranker has a name and passes the state filter |
| SchemeSearch.SearchSchemesCorrect | scheme_search_agent.py:258-280 | a search returns at most 20 named schemes of the user's state or national scope, sorted by score, each scored 0..100, and saves exactly those |
| Ranking.Clamp | scheme_search_agent.py:224 | a score is clamped into 0..100 and unchanged when already inside |
| Ranking.BatchesPartition | scheme_search_agent.py:200-201 | the batches are non-empty, all but the last are full, and together they are the input in order |
| Ranking.IntsOf | scheme_search_agent.py:224 | converting a reply's scores fails exactly when some entry has no `int()`, and otherwise converts each entry |
| Ranking.BatchScores | scheme_search_agent.py:208-220 | an unusable reply (failed call, bad JSON, not a list, wrong length) scores the batch all zero; otherwise the reply's entries are converted |
| Ranking.ScoreBatch | scheme_search_agent.py:208-227 | a scored batch has one record per candidate, keeping its id, similarity and metadata; an unusable reply gives all zeros; a usable reply fails exactly when some entry has no `int()`, and otherwise each record's score is the clamped `int()` of the reply entry at its position |
| Ranking.ScoreBatchesKeepsCandidates | scheme_search_agent.py:200-227 | scoring all batches gives one record per candidate, in order, each keeping its candidate's fields |
| Ranking.UnusableBatchScoresZero | scheme_search_agent.py:215-220 | the records of a batch whose reply is unusable all have score 0 |
| Ranking.InsertSorted | scheme_search_agent.py:230 | inserting into a descending list keeps it descending and adds exactly one element |
| Ranking.InsertStable | scheme_search_agent.py:230 | insertion keeps the relative order of records with equal keys |
| Ranking.SortDescCorrect | scheme_search_agent.py:230 | the sort is a permutation, descending by (llm_score, pinecone_score), and stable as Python's sort is |
| Ranking.Rerank | scheme_search_agent.py:180-232 | a zero batch size raises and a negative one scores nothing |
| Ranking.RerankCorrect | scheme_search_agent.py:180-232 | re-ranking scores every candidate in place, then returns `min(top_k, n)` of the scored records, sorted descending, as a sub-multiset of them (no record duplicated or invented), each at least every scored record left out |
| Ranking.SelectTop | scheme_search_agent.py:230-232 | sorting and slicing to `top_k` keeps a sorted sub-multiset of the scored records, all of them when `top_k >= n`, each at least every record dropped |
| Ranking.TopOfSorted | scheme_search_agent.py:232 | a prefix of a descending list is a sub-multiset whose members are at least every member left behind |
| Ranking.RerankAllFailed | scheme_search_agent.py:218-232 | when every model call fails, re-ranking still succeeds and every score is 0 |
| SchemeDisplay.LoadRecommended | scheme_display_agent.py:33-39 | a file that is not a list raises ValueError; a list is loaded record by record |
| SchemeDisplay.LoadRecords | scheme_display_agent.py:40-60 | loading fails exactly when some record fails, and otherwise loads each record in order |
| SchemeDisplay.LoadRecordCases | scheme_display_agent.py:41-59 | a record with metadata is kept as it is; a flat one becomes id, score, llm_score and metadata with their stated defaults |
| SchemeDisplay.SaveLoadRoundTrip | scheme_display_agent.py:41-59 | loading what the search saved recovers every re-ranked record, with the scheme id as its id |
| SchemeDisplay.OrNotAvailable | scheme_display_agent.py:84-88 | a falsy column is shown as "Not available" and a truthy one as itself |
| SchemeDisplay.FetchDetails | scheme_display_agent.py:69-94 | the lookup finds nothing exactly when the database fails or has no row for the id |
| SchemeDisplay.FetchDetailsColumns | scheme_display_agent.py:82-89 | each of the five columns is shown as stored when truthy, and as "Not available" otherwise |
| SchemeDisplay.KeepNamed | scheme_display_agent.py:99-102 | the constructor keeps exactly the schemes whose metadata has a truthy name, and raises when some entry has no `.get` |
| SchemeDisplay.FillId | scheme_display_agent.py:103-111 | a scheme with a truthy id is left alone, a filled one is displayable, and a failure is AttributeError or TypeError |
| SchemeDisplay.FillIdSynthesizes | scheme_display_agent.py:105-111 | a scheme without an id gets the synthesised placeholder written into its metadata |
| SchemeDisplay.NewAgent | scheme_display_agent.py:98-117 | a constructed agent is valid, listing, and has an empty memory |
| SchemeDisplay.NewAgentCorrect | scheme_display_agent.py:98-113 | with no named scheme the constructor raises ValueError; otherwise the agent holds the named schemes, id-filled, in order |
| SchemeDisplay.RenderListCorrect | scheme_display_agent.py:149-160 | the list renders exactly when every entry has name, description and state, and then contains every numbered entry |
| SchemeDisplay.HandleInput | scheme_display_agent.py:173-232 | every turn keeps the agent valid and its list unchanged |
| SchemeDisplay.ShowChosen | scheme_display_agent.py:193-199 | a found scheme becomes the selection with its details, and the state moves to select_detail |
| SchemeDisplay.ExitAbsorbing | scheme_display_agent.py:231-232 | in exit every input gets the farewell and changes nothing |
| SchemeDisplay.QuitExits | scheme_display_agent.py:175-181 | "quit", in any case and padding, exits from either live state and changes nothing else |
| SchemeDisplay.SelectShowsScheme | scheme_display_agent.py:183-199 | choosing entry N with details present selects scheme N, moves to select_detail, and remembers the exchange |
| SchemeDisplay.SelectMissingDetails | scheme_display_agent.py:186-192 | choosing an entry with no details leaves the agent as it was |
| SchemeDisplay.ListNonNumber | scheme_display_agent.py:202-203 | a non-number in the list state changes nothing and answers with the list |
| SchemeDisplay.ListOutOfRange | scheme_display_agent.py:200-201 | a number outside 1..N changes nothing and names the valid range |
| SchemeDisplay.BackReturnsToList | scheme_display_agent.py:209-213 | back, go back or return clears the selection and returns to the list |
| SchemeDisplay.QuestionAnswered | scheme_display_agent.py:214-227 | an eligibility question or "tell me" is answered by the model and only the memory grows, by two messages |
| SchemeDisplay.SelectOtherInput | scheme_display_agent.py:228-229 | any other input in select_detail changes nothing and gets the "not sure" reply |
| SchemeDisplay.SubstringKeyword | scheme_display_agent.py:214 | keywords match as substrings, so "just" counts as an eligibility question |
| SchemeDisplay.NormalizedIdempotent | scheme_display_agent.py:175 | stripping and lower-casing twice is the same as once |
| Checks.Missing | app.py:29 | the missing fields are exactly the required fields the profile does not set to a truthy value |
| Checks.ValidateUserProfile | app.py:27-33 | a profile is valid exactly when all seven required fields are truthy |
| Checks.ValidateSchemes | app.py:35-42 | validation keeps exactly the named schemes in order, and raises when some entry has no `.get` |
| Checks.ValidateSchemesIdempotent | app.py:35-42 | validating validated schemes changes nothing |
| WebApp.AlignCategory | app.py:60 | the category is overwritten with the caste, or "" without one; no other field changes |
| WebApp.SubmitProfile | app.py:56-83 | the server's agent stays one its constructor built |
| WebApp.SubmitValidationIgnoresCategory | app.py:59-63 | a form passes exactly when name, state, gender, caste, occupation and income are non-empty, whatever category it sent |
| WebApp.SubmitInvalidKeepsState | app.py:61-63 | an invalid form changes no server state and reports the missing fields |
| WebApp.SubmitProfileCorrect | app.py:69-80 | a page without error comes with a fresh listing agent whose schemes are the stored and shown ones, one per named result |
| WebApp.MessageOf | app.py:88 | the message is the stripped `message` string of the JSON body |
| WebApp.Chat | app.py:85-130 | the server's agent stays valid, and the exit action always comes with a cleared state |
| WebApp.ChatWithoutAgent | app.py:88-97 | an empty message, or any message before a profile, changes nothing and asks for what is missing |
| WebApp.ChatQuitResets | app.py:117-121 | "quit" clears the server state and answers with the agent's farewell |
| WebApp.Route | app.py:103-127 | routing either keeps the state or clears it, and clears it on exit |
| WebApp.RouteExit | app.py:117-121 | "quit" or "exit", in any case, clears the state with the exit action |
| WebApp.RouteResetsOnlyOnExit | app.py:117-121 | a set-up state is cleared exactly on "quit" or "exit" |
| WebApp.RouteShowSchemes | app.py:103-104 | an exact "show schemes" asks the page to show the list |
| WebApp.RouteShowDetailsIff | app.py:103-116 | details are shown exactly for "show scheme N" (not "show schemes") naming a stored scheme whose details exist |
| WebApp.ShowSchemeRouteDetails | app.py:105-114 | the show-scheme branch shows details exactly when N names a stored scheme whose details exist |
| WebApp.DetailsForShows | app.py:109-114 | a stored scheme's details are shown exactly when it has an id and the database has its row |
| Cli.RunChatbot | main.py:44-95 | a failed or invalid profile ends the run after collection; a valid one is searched as the saved JSON object, and the run continues exactly as `AfterSearch` of that search result |
| Cli.AfterSearch | main.py:64-95 | a failed search ends the run; it stops for want of schemes exactly when validation leaves none, builds the agent exactly when some remain, and a started agent lists them |
| Cli.SearchResult | main.py:68 | the search returned to the workflow succeeds exactly when the search does, with one dict per returned record, at most 20 |
| Cli.ValidProfileLoads | profile_agent.py:125-127 | the profile the dialogue saves is one the search's loader accepts whenever it is valid |
| Cli.SearchResultsAllValid | main.py:68-70 | every record the search returns has a name, so the workflow's validation keeps them all |
| Cli.NoSchemesOnlyForEmptySearch | main.py:68-74 | with a valid profile, the run stops for want of schemes exactly when the search returned nothing, and builds the agent exactly when it returned something |
| Cli.SearchOnlyForValidProfile | main.py:51-62 | the search runs exactly when the dialogue returned a profile with all seven fields, and then the saved profile always loads |
| Cli.AgentOnlyForSchemes | main.py:67-73 | the display agent is built exactly when at least one result of the search on the collected profile has a name |
| Cli.NewAgentOnValidated | main.py:85-89 | validated, non-empty schemes never make the constructor raise its ValueError, and all are listed |
| Cli.ConstructorSeesValidatedSchemes | main.py:85-89 | an agent the workflow starts lists every validated scheme, and its construction never fails for want of schemes |
| ProfileAgent.BraceSpan | profile_agent.py:62 | the span runs from the first `{` to the last `}`, and exists exactly when some `{` precedes some `}` |
| ProfileAgent.ExtractJson | profile_agent.py:61-68 | extraction gives the parsed span, or nothing when there is no span or it does not parse |
| ProfileAgent.BraceSpanOfWrapped | profile_agent.py:62 | an object embedded in brace-free text is found exactly |
| ProfileAgent.ExtractJsonWithoutBrace | profile_agent.py:67-68 | text without `{` extracts nothing |
| ProfileAgent.Merge | profile_agent.py:122 | merging adds or replaces exactly the truthy extracted values |
| ProfileAgent.MergeKeepsPresent | profile_agent.py:116-122 | a set field stays set, so the missing fields only shrink |
| ProfileAgent.AppendAsWrittenKeepsNone | profile_agent.py:97-98 | as written, the first detail is stored behind "None, " |
| ProfileAgent.AppendAsWrittenExample | profile_agent.py:97-98 | as written, the first detail "farmer" is stored as "None, farmer" |
| ProfileAgent.AppendDetailJoins | profile_agent.py:97-98 | corrected, the first detail is stored as it is and later ones are joined with ", " |
| ProfileAgent.AsWrittenVersusCorrected | profile_agent.py:97-98 | the code's join and the intended join agree once a detail is stored, and before that the code adds "None, " in front |
| ProfileAgent.DetailsKeepComplete | profile_agent.py:80-81 | recording details never changes whether the profile is complete |
| ProfileAgent.AdditionalStep | profile_agent.py:93-100 | the additional phase ends exactly on a "no" word; otherwise it stays in the phase with a complete profile and stores the code's join of the existing value and the line, changing nothing else |
| ProfileAgent.AdditionalKeepsPresent | profile_agent.py:97-98 | appending a detail leaves every other field set |
| ProfileAgent.ConfirmStep | profile_agent.py:103-113 | yes enters the additional phase, a "no" word ends the dialogue, and anything else asks again |
| ProfileAgent.AskStep | profile_agent.py:116-123 | a missing field makes the model answer; its failure is the turn's failure, and no set field is cleared |
| ProfileAgent.Step | profile_agent.py:78-123 | a turn keeps the dialogue consistent, and ends only with a complete profile |
| ProfileAgent.LlmOnlyWhileMissing | profile_agent.py:84-117 | the model is consulted exactly while a required field is missing |
| ProfileAgent.StepKeepsPresent | profile_agent.py:90-123 | no turn clears a required field |
| ProfileAgent.ConfirmationTurn | profile_agent.py:84-113 | with a complete profile outside the additional phase, the turn is decided by the yes/no answer |
| ProfileAgent.AdditionalTurn | profile_agent.py:93-100 | in the additional phase a "no" word ends the dialogue and anything else is appended with the code's join, "None, " included |
| ProfileAgent.FirstDetailStoredAfterNone | profile_agent.py:93-98 | the first detail of the phase, while the details still hold the initial `None`, is stored as "None, " followed by the line |
| ProfileAgent.Collect | profile_agent.py:70-123 | the loop ends only with a complete profile and keeps every state consistent |
| ProfileAgent.CollectedProfileIsValid | profile_agent.py:132-134 | whatever profile the dialogue returns has every required field |
| QueryAgent.ExtraStep | query_agent.py:82-89 | this variant's additional phase ends exactly on no, nah or nope; otherwise it keeps the profile complete and stores the code's join of the existing value and the stripped line, changing nothing else |
| QueryAgent.ChatStep | query_agent.py:92-116 | every other turn asks the model, whose failure is the turn's failure, and keeps the state settled |
| QueryAgent.QueryStep | query_agent.py:77-116 | a turn keeps the state settled and ends only with a complete profile |
| QueryAgent.LlmOnEveryChatTurn | query_agent.py:82-92 | the model is asked on every turn outside the additional phase and never inside it |
| QueryAgent.AwaitingAfterCompleteMerge | query_agent.py:98-108 | the confirmation flag goes up exactly when a reply's JSON completes the profile |
| QueryAgent.ConfirmationAnswer | query_agent.py:98-114 | while awaiting, only a reply without JSON lets the line answer: yes adds details, anything else ends the dialogue |
| QueryAgent.NotIsADetailHere | query_agent.py:83 | "not" is appended as a detail here, where the first variant ends the dialogue |
| QueryAgent.QueryCollect | query_agent.py:69-116 | the loop ends only with a complete profile |
| QueryAgent.QueryProfileIsValid | query_agent.py:128-130 | this variant also returns only complete profiles |
| Chunking.ChunkText | convert_vector_embdeddings.py:25-39 | the loop emits exactly the reference windows, and none exactly for empty text |
| Chunking.ChunkWindows | convert_vector_embdeddings.py:28-35 | every window is cut at an offset inside the text and ends at `min(start + size, len)` |
| Chunking.OnlyLastReachesEnd | convert_vector_embdeddings.py:36-37 | only the last window reaches the end, and with non-negative overlap the last one does |
| Chunking.ChunkStarts | convert_vector_embdeddings.py:38 | each window starts `size - overlap` after the one before |
| Chunking.WindowsAreSlices | convert_vector_embdeddings.py:29-30 | with a positive size every window is non-empty and holds exactly the text between its offsets |
| Chunking.ChunksCover | convert_vector_embdeddings.py:28-38 | with `0 <= overlap < size` every character lies in some window |
| Chunking.NegativeOverlapSkips | convert_vector_embdeddings.py:38 | a negative overlap leaves characters in no window |

## Left out

- Console and file I/O (`input`, `print`, `open`, `json.dump`), logging, Flask templates and HTTP status plumbing: they carry no logic beyond what the modelled functions return.
- Prompt texts and the content of model replies: the model's reply is a parameter, and only the fixed reply strings the code itself writes are modelled.
- The embedding model, the Pinecone client, `uuid`, and the rest of the chunking script (embedding, upsert): external services with no logic here.
- `format_scheme_details` and the model call's prompt: only the prompt text differs, and it is not observable in the model.
- The display agent's console loop `run` and `scheme_display_agent_conversational`: I/O around `handle_input`, which is modelled.
- `json.loads` of model output and of files is a parameter (`parse`) or a given `Json` value. Malformed files are not modelled.
- Python floats are Dafny reals, with no rounding. `str()` of a float, list or dict renders as a fixed placeholder, because no proved property depends on that text.
- Text.ParseInt: accepts ASCII digits only, while Python's `int()` also accepts other Unicode decimal digits (such as "٣"). So `SchemeNumber` and `IntOf` treat such text as not a number, where the code would read it as one.
- Case mapping is ASCII only, and `\w` is ASCII letters, digits and underscore. Unicode case folding and Unicode word characters are not modelled.
- SQLite type affinity is not modelled: rows are looked up by the `Json` id as given.
- The language model is a function of its input and history. Randomness (temperature) is not modelled.
- End of input on the console (EOFError) is not modelled: `Collect` and `QueryCollect` stop when the given lines run out.
- A constructor that raises halfway has already filled some ids in place. The model returns only the exception, not the half-filled list.
- `databse_setup.py` and `pinecone_retrieval.py` are not part of this model: they build the database and query the index outside the core.
- Chunking.OnlyLastReachesEnd: states that the last window reaches the end only for non-negative overlap, because with a negative overlap the loop can step past the end.
- Chunking.ChunksCover: requires `0 <= overlap < size`, because a negative overlap leaves gaps (see `NegativeOverlapSkips`).
- Ranking.RerankCorrect: states the length only for non-negative `top_k`; for a negative `top_k` the Python slice is described by `Text.PrefixSlice`.

## Findings

| source | as written | input that shows it | evidently intended | confidence | as-written member | corrected member |
|---|---|---|---|---|---|---|
| profile_agent.py:97-98 | `user_info.get("additional_details", "")` returns the initial `None`, so the first detail is joined as `"None, " + detail`. query_agent.py:86-87 repeats the pattern. The dialogue steps of both variants store this as-written value (`ProfileAgent.FirstDetailStoredAfterNone`), and `ProfileAgent.AsWrittenVersusCorrected` relates it to the intended join. | first additional detail "farmer" | the first detail is stored as "farmer", and later ones are joined with ", " | not executed | ProfileAgent.AppendAsWrittenExample | ProfileAgent.AppendDetailJoins |
