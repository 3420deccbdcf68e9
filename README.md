# HMO chatbot core, modelled in Dafny

The system is a bilingual (Hebrew/English) chat service for members of Israel's three
health-maintenance organisations (HMOs): Maccabi, Meuhedet and Clalit. A `/chat` turn runs in
one of two phases:

- `info_collection`: the assistant asks the member for their profile. After every message a
  secondary model call extracts whatever profile fields the conversation reveals. Once the merged
  profile is complete and valid, the turn switches to `qa`.
- `qa`: the member's profile and the best-matching knowledge-base snippets are injected into the
  prompt as two system messages.

The knowledge base is a set of HTML pages, one per service topic. Each page is cut into one text
chunk per HMO, holding that HMO's column of the page's benefit table and its phone and link. The
chunks are embedded once. A search keeps the chunks of the HMOs a question concerns and returns
the top three by similarity.

The project has one module per source file:

- `Models`: the pydantic records and the dictionaries they travel in.
- `Validators`: `validate_profile`.
- `Utils`: the name tables, `detect_hmos` and `detect_lang`.
- `Prompts`: the prompt table.
- `ProfileExtractor`: `extract_profile`.
- `DataLoader`: the chunker, `ChunkedKnowledgeBase`.
- `KbSearch`: `EmbeddingRetriever` and `Retriever`.
- `Api`: `gather_profile`, `add_kb_and_profile` and `chat`.

Two more modules support them. `Wrappers` holds `Option` and `Result`. `Text` states the Python
string built-ins the code relies on.

Loops in the source are methods whose `while` loops are proved against a specification
function. `ChunkedKnowledgeBase` and `EmbeddingRetriever` are classes whose fields their constructors
and loading methods set in place. `Retriever` is a class that holds its `EmbeddingRetriever`;
`BuildContext` only reads it. Everything else is functions and lemmas.

Some things the code calls stay outside the model and become parameters:

- the language detector, the chat model and `json.loads`: fields of `Api.Env`;
- the embedding client and the similarity: function fields of `KbSearch.EmbeddingRetriever`;
- the parsed HTML: a `DataLoader.Document`, holding what the BeautifulSoup lookups return.

Every call to the chat model is recorded in the turn's `sent` trace. This lets the lemmas say
which messages a turn sends, and that a rejected turn sends none.

Where the code and the repository's own description of it differ, the model follows the code:

- On a turn that switches from `info_collection` to `qa`, the system prompt is still the
  `info_collection` prompt. It is chosen from the phase the request arrived with (app/api.py:110),
  before the switch (app/api.py:119-121).
- A page without its `<h2>` or its `<table>`, or a phone or details heading with no `<ul>` after
  it, fails with `AttributeError`.
- A table row with fewer than four cells fails with `IndexError`. So does a phone item that starts
  with an HMO name but has no `:`.
- Any of these failures stops the whole load, and the exception escapes the constructor. No knowledge base is built (`DataLoader.Open` returns the failure), so the service does not start.
- A page's description is its `<p>` elements that are siblings before the first `<table>`. It is
  not every paragraph on the page.

## Model

| member | source | states |
|---|---|---|
| `Models.FromDict` | app/models.py:4-12 | a record is built only from a dictionary holding all eight fields with their declared types; the record meets the field constraints and agrees with the dictionary on every field |
| `Models.ToDict` | app/models.py:4-12 | `dict(user_info)` has exactly the eight field keys; age is an int and the rest are strings |
| `Models.FromToDict` | app/models.py:4-12 | a valid record survives the trip through its dictionary unchanged |
| `Models.SameFields` | app/models.py:4-12 | construction depends only on the eight fields' values |
| `Models.FromDictNeedsEveryField` | app/models.py:4-12 | no field has a default: a dictionary missing any field is rejected |
| `Models.FromDictIgnoresExtraKeys` | app/models.py:4-12 | keys that are not fields never change the outcome |
| `Models.FreeTextFields` | app/models.py:5-12 | only id_number, hmo_card and age are constrained; any names, gender, hmo or tier are accepted |
| `Models.AsProfile` | app/models.py:4-12 | a constructed record, as the validator reads it, has no attribute that is None |
| `Validators.ValidateProfile` | app/validators.py:7-47 | the error list is `ProfileErrors` and ok holds exactly when it is empty |
| `Validators.AppendValueChecksHe` | app/validators.py:21-33 | the Hebrew branch appends the failing checks' Hebrew messages, comparing hmo and tier exactly |
| `Validators.AppendValueChecksEn` | app/validators.py:34-46 | the other branch appends the English messages, comparing hmo and tier after lower() |
| `Validators.MissingErrorsEmpty` | app/validators.py:12-17 | the presence loop reports nothing exactly when every field it walks is present |
| `Validators.AllPresentIff` | app/validators.py:11 | the required list is the seven fields other than gender |
| `Validators.MissingReportedOnce` | app/validators.py:11-20 | with a field missing, only presence errors are returned: each missing required field once, every present one never |
| `Validators.MissingBlocksValueChecks` | app/validators.py:19-20 | with a field missing, no value check runs |
| `Validators.ValueChecksAllRun` | app/validators.py:20-46 | with every field present, the errors are exactly the messages of the failing checks, in check order; no check stops another |
| `Validators.ValueMessagesDistinct` | app/validators.py:21-46 | the six messages of a language are different, so each error names one check |
| `Validators.MissingMessageInjective` | app/validators.py:14-17 | different missing fields give different messages |
| `Validators.MissingIsNotValueMessage` | app/validators.py:14-46 | a presence error is never a value-check message |
| `Validators.MissingErrorsCount` | app/validators.py:12-17 | over distinct fields, each missing field is reported exactly once |
| `Validators.RequiredFieldsDistinct` | app/validators.py:11 | the required list has no repeated field |
| `Validators.NonHebrewIsEnglish` | app/validators.py:14-17 | any lang other than "he" gives the same result as "en" |
| `Validators.GenderNeverChecked` | app/validators.py:11-46 | gender's value never changes the outcome |
| `Validators.HmoCaseSensitivity` | app/validators.py:24-37 | "MACCABI" is rejected in the Hebrew branch and accepted in the English one |
| `Validators.TierCaseSensitivity` | app/validators.py:26-39 | "GOLD" is a valid tier only in the English branch |
| `Validators.ValidRecordPassesFormatChecks` | app/validators.py:22-43 | a record that passed the pydantic constraints never fails the id, card or age check |
| `Utils.Invert` | app/utils.py:13 | inverting a map with distinct values maps each value back to its key |
| `Utils.En2HeContents` | app/utils.py:8-13 | EN_2_HE maps the three English names to the Hebrew names |
| `Utils.TranslationInverse` | app/utils.py:5-13 | the two tables are inverse to each other and agree with the name lists position by position |
| `Utils.DetectHmos` | app/utils.py:31-39 | the loop's result is the pairs of the mentioned HMOs, accumulated in order |
| `Utils.MentionedRanks` | app/utils.py:35-36 | the mentioned HMOs, in increasing rank, and every mentioned one is among them |
| `Utils.MentionPairsByRank` | app/utils.py:35-38 | the result holds two names per mentioned HMO: Hebrew first, then English |
| `Utils.NamesDistinct` | app/utils.py:5-6 | the six names are pairwise different |
| `Utils.PairAt` | app/utils.py:35-38 | position j holds the Hebrew (j even) or English (j odd) name of the (j/2)-th mentioned HMO |
| `Utils.DetectHmosPairs` | app/utils.py:31-39 | the result has even length, at most six names, all from the two lists |
| `Utils.DetectHmosDistinct` | app/utils.py:31-39 | the result has no duplicates |
| `Utils.DetectHmosHebrewMember` | app/utils.py:36 | a Hebrew name is in the result exactly when its HMO is mentioned |
| `Utils.DetectHmosEnglishMember` | app/utils.py:36 | an English name is in the result exactly when its HMO is mentioned |
| `Utils.UpperCaseMention` | app/utils.py:33-36 | English names are matched in the lower-cased text, so "MACCABI" counts |
| `Utils.LastUserIndex` | app/utils.py:23-27 | finds the most recent user message, or none when there is none |
| `Utils.Fallback` | app/utils.py:21-28 | the backward walk answers "he" exactly when the most recent user message holds a Hebrew letter |
| `Utils.DetectLang` | app/utils.py:16-28 | the answer is "he" or "en"; "he" exactly when the detector says "he"; "en" when detection fails and there is no user message |
| `Utils.FallbackSkipsOtherRoles` | app/utils.py:24 | a later non-user message does not change the fallback |
| `Utils.FallbackLastUserDecides` | app/utils.py:24-27 | a new user message decides the fallback alone |
| `Prompts.GetSystemPrompt` | app/prompts.py:48-50 | fails exactly for an unknown phase; otherwise gives one of that phase's prompts |
| `Prompts.PromptTableShape` | app/prompts.py:2-46 | the table has exactly the two phases, each in Hebrew and English |
| `Prompts.KnownPhaseKnownLang` | app/prompts.py:50 | a known phase and language select that entry |
| `Prompts.UnknownLangFallsBackToEnglish` | app/prompts.py:50 | an unknown language falls back to the phase's English prompt |
| `Prompts.UnknownPhaseRaises` | app/prompts.py:50 | an unknown phase raises KeyError whatever the language, because the default is evaluated first |
| `ProfileExtractor.TemplateMatchesUserInfo` | app/profile_extractor.py:8-18 | the template's keys are UserInfo's fields, in order |
| `ProfileExtractor.SysPromptNamesEveryKey` | app/profile_extractor.py:20-25 | the extraction prompt names every template key, quoted |
| `ProfileExtractor.FormatHistoryLines` | app/profile_extractor.py:27-29 | with no newline inside messages, the flattened history splits back into one "role: content" line per message |
| `ProfileExtractor.FormatEmptyHistory` | app/profile_extractor.py:29 | an empty history flattens to "" |
| `ProfileExtractor.ExtractorMessages` | app/profile_extractor.py:36-39 | a system message naming every key, then one user message holding the flattened history |
| `ProfileExtractor.StripFences` | app/profile_extractor.py:46 | the cleaned reply has no whitespace at either end (the fence match folds ASCII case only; see Left out) |
| `ProfileExtractor.FencedPayload` | app/profile_extractor.py:45-46 | a fenced payload comes out exactly, whatever whitespace surrounds it or its fences |
| `ProfileExtractor.UnfencedReply` | app/profile_extractor.py:46 | a reply without fences is only stripped |
| `ProfileExtractor.StripFencesOuterSpace` | app/profile_extractor.py:46 | whitespace around the reply does not matter |
| `ProfileExtractor.KeepTemplateKeys` | app/profile_extractor.py:50 | the filtered dictionary has exactly the template's keys |
| `ProfileExtractor.KeepTemplateKeysMeaning` | app/profile_extractor.py:50 | template keys keep their values; absent ones become None; other keys are dropped; filtering twice changes nothing |
| `ProfileExtractor.KeepTemplateKeysFromDict` | app/profile_extractor.py:50 | filtering never changes which record the dictionary builds |
| `ProfileExtractor.ExtractProfile` | app/profile_extractor.py:31-53 | fails with ChatRaised exactly when the model call raises; a success is the empty dictionary or holds exactly the template keys |
| `ProfileExtractor.DecodeFailureIsEmpty` | app/profile_extractor.py:51-53 | a reply that does not decode gives {} and raises nothing |
| `Text.Strip` | app/data_loader.py:26 | strip() leaves no whitespace at either end and never lengthens |
| `Text.Lower` | app/utils.py:33 | the ASCII part of lower(): each A-Z letter becomes its lower-case letter and every other character is kept (see Left out) |
| `Text.SplitJoin` | app/data_loader.py:99 | splitting a newline join gives back the parts when no part holds a newline |
| `Text.JoinContainsPart` | app/kb_search.py:46 | every joined part occurs in the joined text |
| `Text.NatToStringValue` | app/api.py:70 | the digits str() writes for an age read back as that age |
| `DataLoader.Collapse` | app/data_loader.py:26 | re.sub leaves only single spaces as whitespace and is empty only on empty input |
| `DataLoader.CleanIsCollapseStrip` | app/data_loader.py:24-26 | the one-pass cleaner is re.sub(r"\s+", " ", s).strip() |
| `DataLoader.CleanNormal` | app/data_loader.py:24-26 | cleaned text is trimmed and holds only single spaces |
| `DataLoader.CleanIdempotent` | app/data_loader.py:24-26 | cleaning twice is cleaning once |
| `DataLoader.CleanKeepsText` | app/data_loader.py:24-26 | cleaning loses no visible character |
| `DataLoader.CleanNoNewline` | app/data_loader.py:24-26 | cleaned text holds no newline |
| `DataLoader.HmoNamesDistinct` | app/data_loader.py:11 | the three chunk HMOs are distinct |
| `DataLoader.HmoIndex` | app/data_loader.py:28-31 | the column of the j-th HMO is j + 1; any other name has no column |
| `DataLoader.Description` | app/data_loader.py:42-48 | the description joins the cleaned paragraphs before the table, in document order |
| `DataLoader.Cells` | app/data_loader.py:54-55 | one cleaned cell per td |
| `DataLoader.CleanRows` | app/data_loader.py:52-55 | the cleaned cells of every row after the header |
| `DataLoader.TreatmentLines` | app/data_loader.py:56-59 | one "treatment – benefit" line per row, in row order |
| `DataLoader.TreatmentsFrom` | app/data_loader.py:51-59 | a successful table has a list for each of the three HMOs |
| `DataLoader.AppendRow` | app/data_loader.py:56-59 | a row appends one line to each HMO's list, and fails with IndexError exactly when it has fewer than four cells |
| `DataLoader.Treatments` | app/data_loader.py:50-59 | the table loop computes the specified treatment map or error |
| `DataLoader.TreatmentsStop` | app/data_loader.py:53-59 | once a row fails, the rows after it change nothing |
| `DataLoader.TreatmentsFromTable` | app/data_loader.py:51-59 | the table succeeds exactly when every row reaches the last HMO column, and then each HMO reads its own column |
| `DataLoader.AfterColon` | app/data_loader.py:70 | the text after the first ':', missing exactly when there is no ':' |
| `DataLoader.SetPhone` | app/data_loader.py:67-70 | one item updates the phone of each HMO it starts with, failing exactly when such an item has no ':' |
| `DataLoader.PhoneMap` | app/data_loader.py:61-70 | the phone loop computes the specified phone map or error |
| `DataLoader.PhoneOfLast` | app/data_loader.py:66-70 | an HMO's phone is set by the last item starting with its name |
| `DataLoader.PhoneOfNone` | app/data_loader.py:62-70 | an HMO that no item starts with keeps the empty phone |
| `DataLoader.FirstNameSpec` | app/data_loader.py:78 | next(...) finds the first name the text starts with, and None exactly when it starts with none |
| `DataLoader.ItemHmoStrip` | app/data_loader.py:78 | the HMO of a details item is the first name that its stripped text starts with |
| `DataLoader.ItemHmoKnown` | app/data_loader.py:78 | that HMO is always one of HMO_NAMES |
| `DataLoader.UrlStepUpdate` | app/data_loader.py:79-83 | an item changes only the URL of its own HMO, and only when its link has an href |
| `DataLoader.AddDetails` | app/data_loader.py:78-83 | one item sets its HMO's URL, failing with KeyError exactly on a link without an href |
| `DataLoader.UrlMap` | app/data_loader.py:72-83 | the details loop computes the specified URL map or error |
| `DataLoader.UrlOfLast` | app/data_loader.py:77-83 | an HMO's URL is set by the last item about it that has an href |
| `DataLoader.DetailsSkipsOthers` | app/data_loader.py:79-80 | an item whose text starts with no HMO name changes nothing |
| `DataLoader.ParsePage` | app/data_loader.py:39-83 | a page read successfully has treatments, phones and URLs for all three HMOs |
| `DataLoader.ReadPage` | app/data_loader.py:39-83 | reading a document computes the specified page or error |
| `DataLoader.ChunksFor` | app/data_loader.py:86-100 | one chunk per HMO name |
| `DataLoader.ChunkBullet` | app/data_loader.py:53-92 | line 4 + i of an HMO's chunk is the bullet of row i: its treatment cell, a dash, and that HMO's own cell |
| `DataLoader.ChunkTextLines` | app/data_loader.py:87-99 | when the page has no newline in its parts, the chunk text splits back into exactly its lines |
| `DataLoader.ParsedPageOneLine` | app/data_loader.py:39-83 | every part of a parsed page is on one line, provided the hrefs are |
| `DataLoader.DocumentChunksShape` | app/data_loader.py:86-100 | a document gives three chunks, one per HMO in HMO_NAMES order, each with the page topic |
| `DataLoader.ChunkedKnowledgeBase.Empty` | app/data_loader.py:17 | the chunk list starts empty |
| `DataLoader.ChunkedKnowledgeBase.LoadDocument` | app/data_loader.py:38-100 | a document appends its three chunks, or nothing and reports the error |
| `DataLoader.ChunkedKnowledgeBase.AppendChunks` | app/data_loader.py:86-100 | appends the page's chunks to the list, after the existing ones |
| `DataLoader.ChunkedKnowledgeBase.Load` | app/data_loader.py:36-106 | appends the chunks of every document up to the first failure, and reports that failure |
| `DataLoader.LoadAllStops` | app/data_loader.py:38-100 | once a document fails, the later ones change nothing |
| `DataLoader.LoadAllShape` | app/data_loader.py:38-100 | without a failure, document i's chunks sit at positions 3i to 3i+2 |
| `DataLoader.Open` | app/data_loader.py:16-18 | the constructor gives a fresh knowledge base holding every chunk, or the first failure |
| `KbSearch.IndexOf` | app/kb_search.py:18-23 | one index entry per chunk |
| `KbSearch.IndexOfChunks` | app/kb_search.py:15-23 | entry i holds chunk i's HMO and text and the embedding of its text |
| `KbSearch.Candidates` | app/kb_search.py:30-34 | every candidate comes from an allowed entry, with its text and score, in index order |
| `KbSearch.CandidatesComplete` | app/kb_search.py:30-34 | every allowed entry is a candidate |
| `KbSearch.NoCandidates` | app/kb_search.py:30-34 | with no allowed entry there is no candidate |
| `KbSearch.Insert` | app/kb_search.py:35 | inserting adds exactly the one element |
| `KbSearch.SortPermutation` | app/kb_search.py:35 | sorting is a permutation |
| `KbSearch.InsertRanked` | app/kb_search.py:35 | inserting keeps the order by descending score, ties in index order |
| `KbSearch.SortRanked` | app/kb_search.py:35 | the stable sort orders by descending score, keeping index order among equal scores |
| `KbSearch.Take` | app/kb_search.py:36 | the slice [:k] is a prefix of the computed length, including a negative k |
| `KbSearch.TakeRanked` | app/kb_search.py:36 | a prefix of a ranked list is ranked and scores at least as high as what it leaves out |
| `KbSearch.Texts` | app/kb_search.py:36 | the texts of the results, in order |
| `KbSearch.TopIsBest` | app/kb_search.py:30-36 | the results are ranked, and no candidate left out scores higher than a result kept |
| `KbSearch.SearchResults` | app/kb_search.py:26-36 | at most top_k results, each the text of an allowed entry, and none when no entry is allowed |
| `KbSearch.EmbeddingRetriever.constructor` | app/kb_search.py:10-23 | stores top_k (default 3) and builds the index of the knowledge base's chunks |
| `KbSearch.EmbeddingRetriever.Search` | app/kb_search.py:26-36 | returns the top texts of the allowed entries for the query's embedding, with the bounds of `SearchResults` |
| `KbSearch.Retriever.constructor` | app/kb_search.py:40-42 | wraps a fresh retriever with top_k 3 |
| `KbSearch.Retriever.BuildContext` | app/kb_search.py:44-46 | the context contains every returned snippet, and is "" when no entry is allowed |
| `Api.MergeTruthyOnly` | app/api.py:36-43 | truthy extracted values overwrite; falsy ones leave the existing value or absence alone |
| `Api.MergeIdempotent` | app/api.py:43 | merging the same extraction twice is merging it once |
| `Api.Merged` | app/api.py:36-43 | outside info_collection the profile is a copy of the existing one; in info_collection it is that copy updated with the extractor's result, and an extractor failure escapes |
| `Api.Gather` | app/api.py:24-54 | fails exactly when extraction raises; ok exactly when the merged profile builds a record that passes the validator, and the profile is then the merged one; a construction failure returns the merged profile with False; a validator failure returns ({}, False) |
| `Api.GatherProfile` | app/api.py:24-54 | the procedure computes the specified outcome |
| `Api.GatherQaKeepsUserInfo` | app/api.py:36-54 | in qa a valid existing profile is returned unchanged with ok |
| `Api.GatherQaWithoutUserInfo` | app/api.py:36-54 | in qa without a profile the result is ({}, False) |
| `Api.DetectedAreLower` | app/api.py:76 | lower-casing the detected names changes nothing |
| `Api.AddIfAbsentDistinct` | app/api.py:83-88 | a conditional append keeps the list duplicate-free and contains the name afterwards |
| `Api.WithProfileHmoShape` | app/api.py:77-88 | the mentions are kept as a prefix, and the profile HMO with both its names is added, at most three names and no duplicates; a name is in the list exactly when it is a mention or one of the three forms |
| `Api.RetrievalHmosShape` | app/api.py:76-88 | the HMOs searched start with the detected ones and hold the profile HMO under both names, without duplicates; nothing else is searched |
| `Api.HebrewNameForms` | app/api.py:80-81 | a Hebrew HMO name maps to itself and to its English name |
| `Api.RetrievalHmosBothNames` | app/api.py:76-88 | a Hebrew profile HMO is searched under its Hebrew and its English name |
| `Api.UnmentionedHmoNotSearched` | app/api.py:76-88 | with a Hebrew profile HMO, another HMO the message does not mention is searched under neither name |
| `Api.Query` | app/api.py:90-94 | the query ends with the user's text, and is only that text when the history has fewer than two messages |
| `Api.WithKbAndProfileShape` | app/api.py:73-97 | the base system prompt stays first, the profile then the knowledge base follow, and the conversation is unchanged after them |
| `Api.SearchNames` | app/api.py:76-88 | the loop computes the specified list of HMOs to search |
| `Api.AddKbAndProfile` | app/api.py:57-97 | inserts the profile text and the context of the retriever for those HMOs and that query |
| `Api.SystemPrompt` | app/api.py:110 | the prompt is one of the phase's table entries |
| `Api.Settle` | app/api.py:114-128 | fails exactly when extraction raises, which only info_collection does; ok exactly when the merged profile is complete and valid, and then the record is UserInfo(**merged) |
| `Api.AnswerTurn` | app/api.py:124-147 | the qa check, the injection, the model call and the response, as specified |
| `Api.Chat` | app/api.py:102-153 | the endpoint computes the specified turn |
| `Api.AnswerQaIncomplete` | app/api.py:124-126 | qa without ok is a 400 with the incomplete-profile detail, before the model is called |
| `Api.AnswerShape` | app/api.py:132-147 | one model call; the history gains the user message and the reply; full_info is ok; user_info is set only when ok |
| `Api.AnswerInjects` | app/api.py:73-97 | the model sees the base prompt, then the profile, then the knowledge base, then the conversation |
| `Api.AnswerCollecting` | app/api.py:111-132 | without a complete profile, info_collection sends the plain conversation |
| `Api.TurnExtractionFailed` | app/api.py:38-43 | a failing extraction becomes a 500 after only the extraction call |
| `Api.QaNeverExtracts` | app/api.py:38 | qa never calls the extractor, and calls the model at most once |
| `Api.QaIncompleteRejected` | app/api.py:124-126 | qa with an invalid profile is a 400 and nothing is sent |
| `Api.SwitchInjectsContext` | app/api.py:119-129 | a completed profile switches the turn to qa: extraction, then an answer with the profile and context injected, returning full_info and the record |
| `Api.CollectingAsksPlainly` | app/api.py:114-132 | an incomplete profile gives extraction, then the plain conversation, with full_info false and no user_info |
| `Api.CompletingTurnSwitches` | app/api.py:114-129 | an info_collection turn whose merged profile is complete and valid switches to qa in the same turn: the answer call keeps the info_collection system prompt, then carries that record's profile and its knowledge-base context, and an answer reports full_info with the record |
| `Api.IncompleteTurnKeepsCollecting` | app/api.py:114-132 | an info_collection turn whose merged profile is not complete and valid stays in info_collection: extraction, then the plain conversation, with full_info false |
| `Api.ResponseShape` | app/api.py:132-147 | every successful turn appends the user message and the reply to the history, and the reply is the answer to its last model call |
| `Api.UnknownPhaseRejected` | app/api.py:105-106 | an unknown phase is a 400 and nothing is sent |
| `Api.QaWithoutUserInfoRejected` | app/api.py:114-126 | qa without user_info is a 400 and nothing is sent |
| `Api.QaValidProfileAnswered` | app/api.py:114-147 | qa with a valid profile sends one call with the profile injected, and echoes the profile with full_info |

## Left out

- HTML parsing (BeautifulSoup), the `*.html` glob and file reading: a page is a `Document` holding what the lookups return, and `ChunkedKnowledgeBase.Load` takes the list of documents.
- Logging in every module: it has no effect on results.
- `langdetect`, the chat model and `json.loads` are opaque functions passed in `Api.Env`. The prompt wording is an opaque constant for each table entry.
- KbSearch.EmbeddingRetriever.constructor: the float32 conversion and the normalisation by `norm + 1e-8` are not modelled. The embedding is one function applied to each text, so the `zip` truncation of a short embedding list is not modelled either.
- KbSearch.EmbeddingRetriever.Search: the dot product is an abstract real-valued `score`. The query is embedded with the same function as the chunks.
- `Retriever` is built at import time from a module-level knowledge base. In the model it is a parameter of `Api.Chat` and `Api.AddKbAndProfile`.
- Models.FromDict: pydantic's lax coercions are not modelled, such as numeric strings for age or integral floats. Only values of the declared type are accepted, and `\d` means the ASCII digits.
- Text.Lower: only the ASCII letters A-Z are lowered. Python's lower() also maps other cased letters and can lengthen a string. It is applied to free user text (app/utils.py:33) and to profile values (app/validators.py:37-39). For example, "MACCABİ" (U+0130) lowers to "maccabi" plus a combining dot in Python. That contains "maccabi", so detect_hmos finds Maccabi, while the model's lower() keeps "İ" and finds nothing.
- Utils.DetectHmos: the English names are matched in the ASCII-lowered text, so mentions that only Python's full case mapping turns into an English name (the "MACCABİ" case above) are not detected.
- ProfileExtractor.StripFences: `re.I` folds case beyond ASCII, and the model folds ASCII only. In Python "ſ" (U+017F) matches "s", so a reply starting with "```jſon" loses its opening fence. In the model `JsonFenceAt` rejects it, so the fence stays, decoding fails and the extraction is {}.
- Api.Chat: the 500 response carries `str(exc)`. The model records which failure caused it, not the text.
- KbSearch.EmbeddingRetriever.Search: the embedding client is a total function here. In the code, `client.embed([query])` (app/kb_search.py:27) can raise during a qa turn, which becomes a 500 (app/api.py:151-153). That path is not modelled, and neither is a failure of the index-time `embed` in the constructor.
- Models.Message: history entries are records that always hold a role and a content. `ChatRequest.history` is a list of arbitrary dicts (app/models.py:17). An entry without "content" raises KeyError in `_format_history` (app/profile_extractor.py:29), at `history[-2]["content"]` (app/api.py:93) or in the language fallback (app/utils.py:25), and the turn fails with a 500. An entry without "role" raises in `_format_history`. Such requests are outside the model.
- FastAPI routing, async execution and the HTTP transport are not part of this model. So are `main.py`, `openai_client.py`, `logger.py` and the frontend.
- DataLoader.ItemHmo: it is defined on lstrip() of the item text. `DataLoader.ItemHmoStrip` proves this the same as startswith on strip(), because every HMO name ends in a non-space character.
