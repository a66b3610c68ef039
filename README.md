# typoteka: a verified model of the blog's decision logic and seed tools

typoteka is an Express/Sequelize blog with articles, categories, comments and
users. It has three parts. A REST service answers under `/api`. A
server-rendered site calls that service. Three command-line tools generate seed
data: `--generate` writes mocks.json, `--fill` writes an SQL file and
`--filldb` fills the database.

This project models the part of the blog that makes decisions or shapes data.
The network, the ORM and the templates are left out. The model covers:

- the REST handlers for articles, categories and search, as functions that
  choose a status code and a body, over abstract stores;
- the validation middlewares and the Joi schemas they apply, written out as
  explicit checks that return Joi's error details in Joi's order;
- the "best commented" ranking: filter, a stable sort by comment count, first
  four;
- the home page's paging arithmetic and side blocks;
- the sign-up, article and comment form payloads, including the in-place
  `Object.assign` merge on edit;
- the randomised helpers of `utils.js`, with `Math.random()` given as a
  sequence of draws `rng` and a call counter `t`, so that draws are consumed in
  JavaScript evaluation order;
- the three seed generators and the SQL `VALUES` lists of `--fill`;
- the rule that names uploaded files, and the upload filter.

The shuffle is Sattolo's variant, because the swap partner is drawn below `i`.
It is modelled twice: once as an in-place loop on an `array` (`Random.Shuffle`)
and once as the function that specifies it. The same holds for the splice loop
of `getRandomSubarray` and for the nested `forEach` that builds the
article–category pairs. A session and an article record are `class`es, because
the source changes them in place: logout deletes a key, and the edit handler
calls `Object.assign`.

Missing imports are parameters of the model. These are `Instances`/`Instance`
and `FILE_TYPES`, which constants.js does not export; `userSchema`, which
schemas.js does not export; the article-exist middleware; and `prepareErrors`.

Numbers in request values are reals. `+s`, `Number(s)` and Joi's coercion read
only plain decimal integers (`Text.DecimalInteger`). `+s` also reads the empty
string as 0 (`Text.NumberOf`). String lengths are counted, as in JavaScript, in
UTF-16 code units (`Text.Utf16Length`). `Number.parseInt(s, 10)`
is modelled in full for base 10 (`Text.ParseInt`).

## Model

| member | source | states |
|---|---|---|
| Random.ScaledBelow | src/utils.js:6 | a draw scaled by a width k ≥ 1 lies in [0, k) |
| Random.FloorOfProduct | src/utils.js:6 | `Math.floor(r * k)` lies in [0, k) for k ≥ 1, and in [k, 0] otherwise |
| Random.RandomInt | src/utils.js:3-7 | getRandomInt yields an integer of [ceil(min), floor(max)] when that range is non-empty; otherwise a number between floor(max)+1 and ceil(min) |
| Random.Swap | src/utils.js:12 | `[a[i], a[j]] = [a[j], a[i]]` on a copy keeps the length; `SwapExchanges` states what it moves |
| Random.SwapExchanges | src/utils.js:12 | the destructuring swap exchanges the two cells, leaves every other cell alone and keeps the multiset |
| Random.Partner | src/utils.js:11 | the swap partner of position i is strictly below i |
| Random.SattoloSteps | src/utils.js:10-13 | the loop from position i down to 1 keeps the length |
| Random.Shuffled | src/utils.js:9-16 | what shuffle leaves in the array has the input's length |
| Random.SattoloStepsPermutes | src/utils.js:10-13 | every run of the loop keeps the multiset of elements |
| Random.ShuffledIsPermutation | src/utils.js:9-16 | shuffle returns a permutation of its input: same length, same multiset |
| Random.SattoloStepsPick | src/utils.js:10-13 | shuffling commutes with reading positions, so the loop only moves positions around |
| Random.SattoloStepsMoveAll | src/utils.js:10-13 | the loop invariant (positions above i settled and moved, positions up to i own or from above) ends with no fixed point |
| Random.ShuffleMovesEveryElement | src/utils.js:9-16 | on two or more elements, every element ends at a new position: the result is the input read through a permutation of positions with no fixed point |
| Random.Shuffle | src/utils.js:9-16 | the in-place loop returns the same array, now holding `Shuffled` of its old contents |
| Random.SliceIndex | src/utils.js:28 | a slice bound is clamped into [0, n] |
| Random.JsSlice | src/utils.js:28 | `slice` is never longer than the array, and is the plain subsequence for in-range bounds |
| Random.JsSliceWithin | src/utils.js:28 | a slice holds only elements of its array |
| Random.JsSliceLength | src/utils.js:28 | a slice has hi − lo elements after clamping, or none |
| Random.HalfBounds | src/utils.js:28 | for a non-empty array, 0 ≤ floor((n−1)/2) ≤ ceil((n−1)/2) ≤ n−1, so both getRandomInt calls have non-empty ranges |
| Random.RandomRun | src/utils.js:28 | the outer slice is a run of neighbouring elements that stops before the last element (empty for an empty array) |
| Random.ArrayPart | src/utils.js:27-29 | getRandomArrayPart gives at most three neighbouring elements that never include the last one |
| Random.PrefixOfRun | src/utils.js:28 | `slice(0, 3)` of such a run is again such a run |
| Random.RunWithin | src/utils.js:28 | a run holds only elements of the array |
| Random.SpliceOne | src/utils.js:45-47 | `splice(k, 1)` at an index of the array removes exactly that element and closes the gap; past the end it removes nothing |
| Random.SplicePermutes | src/utils.js:45-47 | `splice(k, 1)` removes at most one element and loses or duplicates nothing |
| Random.PickIndex | src/utils.js:46 | the drawn position lies inside a non-empty copy |
| Random.Picks | src/utils.js:43-48 | the `while (count--)` loop as a function of the draws; `PicksStep` and `PicksKeep` state what each round and the whole loop do |
| Random.PicksStep | src/utils.js:43-49 | one round of `while (count--)` splices at the drawn position and continues with call t+1 |
| Random.PicksKeep | src/utils.js:43-49 | the loop keeps picked + left equal to the input as a multiset, removes min(count, length) elements and makes one draw per round |
| Random.SubarrayCount | src/utils.js:41 | with two or more items, between 1 and n−1 elements are taken |
| Random.RandomSubarray | src/utils.js:39-51 | getRandomSubarray as a function of the draws: one draw for the count, then the loop over a copy; `RandomSubarrayPicksDistinct` states its result |
| Random.RandomSubarrayPicksDistinct | src/utils.js:39-51 | the picks come from distinct positions (picked + left is the input), and with n ≥ 2 there are between 1 and n−1 of them |
| Random.GetRandomSubarray | src/utils.js:39-51 | the splice loop over a copy returns the picks and the next call number of `RandomSubarray` |
| Random.JoinedSentences | src/utils.js:34 | joining at most k pool sentences gives a text of at most k sentences |
| Random.ConsText | src/utils.js:33-35 | adding a good comment to good comments keeps every text within bounds |
| Random.GenerateComments | src/utils.js:31-37 | exactly `count` records, each one text of at most three comment sentences; the shared pool keeps its multiset |
| Seed.CountArg | src/service/cli/generate.js:47-48 | a missing argument, a non-number or 0 gives 1; any other integer parseInt reads is taken as it is (negative included) |
| Seed.ArrayLength | src/service/cli/fill.js:50 | `Array(n)` accepts exactly the integers from 0 to 2^32 − 1 |
| Seed.CountArgReadsNumber | src/service/cli/fill.js:75-76 | every non-zero count written in decimal is read back as itself |
| Seed.ReadLines | src/service/cli/generate.js:19-27 | an unreadable file gives no lines; otherwise at least one line, none with a line feed, joining back into the text |
| Seed.PickTitle | src/service/cli/generate.js:31 | the title is `undefined` exactly when there are no titles, and otherwise one of them |
| Seed.PostTexts | src/service/cli/generate.js:33-34 | the announce is at most four sentences; with seven or more sentences the full text has between five and n−2 of them, with fewer it has n−1; the pool keeps its multiset; the number of draws is exact |
| Seed.SliceOfPool | src/service/cli/generate.js:33-34 | a slice of a reordered pool holds pool sentences |
| FillData.ConsCommentOk | src/service/cli/fill.js:49-57 | good comments stay good when another good one is put first |
| FillData.AssembledArticleOk | src/service/cli/fill.js:59-68 | an article built from a listed title, a short announce, a run of at most three categories, 2–4 own comments and a user as author is well formed |
| FillData.ConsArticleOk | src/service/cli/fill.js:60 | a well-formed article in front of well-formed later ones keeps the list well formed |
| FillComments.PickUser | src/service/cli/fill.js:51 | `getRandomInt(1, userCount)` names one of the users |
| FillComments.SentenceCount | src/service/cli/fill.js:54 | a comment takes one to three sentences |
| FillComments.CommentCount | src/service/cli/fill.js:65 | an article gets between 2 and MAX_COMMENTS comments |
| FillComments.NextComment | src/service/cli/fill.js:50-56 | a comment carries its article's id, one of the users, and one to three sentences of the shuffled pool; no sentence only when the pool is empty |
| FillData.CommentTextEmpty | src/service/cli/fill.js:52-55 | with a pool of non-empty sentences, a comment text is empty exactly when the pool is empty |
| FillComments.Comments | src/service/cli/fill.js:49-57 | exactly `count` comments; the shared pool keeps its multiset |
| FillComments.CommentsAreOk | src/service/cli/fill.js:49-57 | every generated comment belongs to the article, has a user as author and is one to three comment sentences (none only from an empty pool) |
| FillComments.ArticleComments | src/service/cli/fill.js:65 | an article has 2 to MAX_COMMENTS comments, all well formed for its number |
| Fill.NextArticle | src/service/cli/fill.js:60-67 | the article at `index` is well formed for that position, whatever order earlier shuffles left the pools in |
| Fill.GenerateArticles | src/service/cli/fill.js:59-68 | exactly `count` articles, each well formed for its 1-based position; the pools keep their multisets |
| Fill.AllComments | src/service/cli/fill.js:79 | `flatMap` of the articles' comments; `CommentsRegroup` states that it regroups back into each article's comments, in order |
| Fill.CommentsOf | src/service/cli/fill.js:79 | picking one article's comments never gives more than the list |
| Fill.CommentsOfCons | src/service/cli/fill.js:79 | picking distributes over a leading comment |
| Fill.CommentsOfConcat | src/service/cli/fill.js:79 | picking distributes over concatenation |
| Fill.CommentsOfUniform | src/service/cli/fill.js:79 | a list of one article's comments is kept whole for that article and gives nothing for another |
| Fill.NumberedTail | src/service/cli/fill.js:79 | the rest of a numbered list is numbered from the next id; the first article's comments carry its own id |
| Fill.NoneOfEarlier | src/service/cli/fill.js:79 | the flattened comments hold nothing for an id at or below the base |
| Fill.CommentsOfFirst | src/service/cli/fill.js:79 | the flattened comments of an id split into the first article's and the rest's |
| Fill.CommentsOfOwn | src/service/cli/fill.js:79 | the first article's id picks out exactly its comments |
| Fill.CommentsOfLater | src/service/cli/fill.js:79 | a later id picks nothing from the first article |
| Fill.CommentsRegroup | src/service/cli/fill.js:79 | flatMap loses nothing and mixes nothing: the comments of id base+i+1 in the flat list are exactly article i's comments, in order |
| Fill.NumberedFromOne | src/service/cli/fill.js:59-68 | generated articles number their comments from 1 in the order they were made |
| Fill.IndexOf | src/service/cli/fill.js:83 | indexOf is −1 exactly for an absent value; otherwise it is the first position holding it |
| Fill.ArticlesCategories | src/service/cli/fill.js:80-85 | the nested `forEach`/`push` loops build exactly `PairsOf` |
| Fill.PairsOf | src/service/cli/fill.js:80-85 | the pairs the nested loops push, article by article; `PairsOfLength`, `PairsOfAt`, `PairsOfMembers` and `PairsOfOrdered` state how many, where, which and in what order |
| Fill.RowPairs | src/service/cli/fill.js:82-84 | the pairs one article's `forEach` pushes; `RowPairsAt` states what each one is |
| Fill.RowPairsAt | src/service/cli/fill.js:82-84 | one pair per category of the article, the `j`-th naming the article (1-based) and indexOf+1 of its `j`-th category |
| Fill.LinkCount | src/service/cli/fill.js:81-85 | the number of article–category links, at least the last article's category count |
| Fill.PairsOfLength | src/service/cli/fill.js:80-85 | one pair per link: the list is exactly as long as the articles have categories in all, so no pair is lost or doubled |
| Fill.PairsOfAt | src/service/cli/fill.js:80-85 | article `i`'s pairs follow the pairs of the articles before it, the `j`-th naming its `j`-th category |
| Fill.PairsOfAtLast | src/service/cli/fill.js:80-85 | the last article's pairs come after all the others' |
| Fill.RowPairsStep | src/service/cli/fill.js:82-84 | one more category of an article appends its pair |
| Fill.PairsOfStep | src/service/cli/fill.js:81-85 | one more article appends its whole row of pairs |
| Fill.RowPairsMembers | src/service/cli/fill.js:82-84 | an article's pairs are exactly (its id, indexOf(c)+1) for its categories c |
| Fill.PairsOfMembers | src/service/cli/fill.js:80-85 | a pair is in the list if and only if it links an article (1-based) to indexOf+1 of one of its categories |
| Fill.OrderedAppend | src/service/cli/fill.js:81-85 | appending article n's pairs to earlier ones keeps article ids non-decreasing |
| Fill.PairsOfOrdered | src/service/cli/fill.js:80-85 | pairs come in article order: ids lie in [1, n] and never decrease |
| Fill.InitPairBound | src/service/cli/fill.js:83 | every pair names one of the articles |
| Fill.RowPairsOf | src/service/cli/fill.js:83 | every pair of one article carries its id |
| Fill.PairsNameListedCategories | src/service/cli/fill.js:83 | when every category is in the list, each pair names the position of one of its article's categories |
| FillSql.Number | src/service/cli/fill.js:94-107 | a number in a template literal is a bare token that reads back as that number |
| FillSql.UserRow | src/service/cli/fill.js:87-89 | a user row is five quoted fields |
| FillSql.CategoryRow | src/service/cli/fill.js:92 | a category row is its quoted name |
| FillSql.TitleText | src/service/cli/fill.js:96 | a missing title is written as the word `undefined` |
| FillSql.ArticleRow | src/service/cli/fill.js:94-96 | an article row is its three quoted texts and its author's number; categories and comments are not in it |
| FillSql.PairRow | src/service/cli/fill.js:99-101 | a pair row is its two numbers |
| FillSql.CommentRow | src/service/cli/fill.js:104-106 | a comment row is its quoted text, its author and its article |
| FillSql.UserRows | src/service/cli/fill.js:87-90 | one row per user, in order |
| FillSql.CategoryRows | src/service/cli/fill.js:92 | one row per category line, in order |
| FillSql.ArticleRows | src/service/cli/fill.js:94-97 | one row per article, in order |
| FillSql.PairRows | src/service/cli/fill.js:99-102 | one row per article–category pair, in order |
| FillSql.CommentRows | src/service/cli/fill.js:104-107 | one row per comment, in order |
| FillSql.Run | src/service/cli/fill.js:72-107 | a count that is not an array length (negative, or 2^32 and more) makes `Array(count)` throw; otherwise `count` articles, two users, one row per category line, 2·count to 4·count comments each naming a user and one of the articles, and pairs naming an article and a category position in [0, categories] |
| FillSql.CommentsCounted | src/service/cli/fill.js:65-79 | well-formed articles give between 2 and 4 comments each, every one by a user and of one of them |
| FillSql.CommentRowsOk | src/service/cli/fill.js:104-106 | comment rows hold a quoted text and two numbers within the user and article ranges |
| FillSql.PairRowsOk | src/service/cli/fill.js:99-101 | pair rows hold an article number in [1, count] and a category number in [0, categories] |
| FillSql.PairValuesReadBack | src/service/cli/fill.js:99-102 | the pairs list always reads back as its rows |
| FillSql.CommentValuesReadBack | src/service/cli/fill.js:104-107 | the comments list reads back when no text holds a quote or a line break |
| FillSql.ArticleValuesReadBack | src/service/cli/fill.js:94-97 | the articles list reads back when no title, announce or full text holds a quote or a line break |
| FillSql.CategoryValuesReadBack | src/service/cli/fill.js:92 | the categories list reads back when no name holds a quote or a line break |
| SqlValues.ValuesText | src/service/cli/fill.js:87-107 | a VALUES list: the row literals joined with ",\n"; `ReadValuesOfValuesText` reads it back into the rows |
| SqlValues.Tuples | src/service/cli/fill.js:87-107 | one template literal per row, in order |
| SqlValues.Find | src/service/cli/fill.js:96 | the first position of a character, or −1 exactly when it is absent |
| SqlValues.FindStop | src/service/cli/fill.js:96 | the first comma or closing parenthesis, or −1 exactly when there is none |
| SqlValues.ReadField | src/service/cli/fill.js:96 | reading one value consumes at least one character of the text |
| SqlValues.ReadQuoted | src/service/cli/fill.js:96 | `'${text}'` reads back up to its closing quote when the text holds no quote |
| SqlValues.QuoteSplit | src/service/cli/fill.js:96 | a quoted text splits into its opening quote, its text and what follows |
| SqlValues.FindAfter | src/service/cli/fill.js:96 | the search stops at the first quote after a quote-free text |
| SqlValues.ReadBare | src/service/cli/fill.js:101 | a bare token reads back up to the comma or parenthesis after it |
| SqlValues.ReadOne | src/service/cli/fill.js:94-107 | any plain value reads back in front of a separator |
| SqlValues.ReadFieldsLast | src/service/cli/fill.js:96 | a value followed only by `)` is the row's last |
| SqlValues.ReadFieldsCons | src/service/cli/fill.js:96 | a value, `, ` and more values read as the list of them |
| SqlValues.ReadFieldsStuck | src/service/cli/fill.js:96 | a value followed by anything else does not read |
| SqlValues.CommaSplit | src/service/cli/fill.js:89 | `head, rest` splits at the comma after `head` |
| SqlValues.ReadFieldsListed | src/service/cli/fill.js:87-107 | the values of a plain row read back from their `, `-separated list and its parenthesis |
| SqlValues.ReadFieldsListedLast | src/service/cli/fill.js:92 | a single plain value reads back |
| SqlValues.ReadFieldsListedCons | src/service/cli/fill.js:89 | a plain value in front of a list that reads back reads back too |
| SqlValues.ReadFieldsAfterComma | src/service/cli/fill.js:89 | a plain value, `, ` and readable values read as all of them |
| SqlValues.PlainTail | src/service/cli/fill.js:89 | the rest of a plain row is plain |
| SqlValues.ReadTupleOfTuple | src/service/cli/fill.js:87-107 | a non-empty plain row reads back from its template literal |
| SqlValues.QuoteBreaksRow | src/service/cli/fill.js:106 | a text holding a quote (`it's`) makes the row unreadable: the text is interpolated without escaping |
| SqlValues.ListedAvoids | src/service/cli/fill.js:89 | a row's text has no line break when its values have none |
| SqlValues.ReadLinesCons | src/service/cli/fill.js:90 | a line ending in a comma, then more lines, reads as its row and then theirs |
| SqlValues.ReadLinesStep | src/service/cli/fill.js:90 | a row's line with its comma, then readable lines, reads back |
| SqlValues.ReadableTail | src/service/cli/fill.js:90 | the rest of a readable list is readable |
| SqlValues.ReadableHead | src/service/cli/fill.js:90 | the first row of a readable list is non-empty and plain |
| SqlValues.TrailingCommasTail | src/service/cli/fill.js:90 | the lines of a list are its first line with a comma, then the lines of the rest |
| SqlValues.ReadLinesSingle | src/service/cli/fill.js:90 | a list of one row is one line without a comma |
| SqlValues.ReadLinesMoreRows | src/service/cli/fill.js:90 | a list of several rows reads back when the rest does |
| SqlValues.ReadLinesOfTuples | src/service/cli/fill.js:87-107 | the tuple lines, all but the last with a comma, read back as the rows |
| SqlValues.ReadValuesOfValuesText | src/service/cli/fill.js:87-107 | a VALUES list splits into one line per row (a comma ends every line but the last) and reads back as its rows, when no text holds a quote or a line break |
| SqlValues.LinesAvoidBreaks | src/service/cli/fill.js:87-107 | no line of the list holds a line break |
| Generate.ConsWellFormed | src/service/cli/generate.js:29-40 | a well-formed post in front of well-formed posts keeps them all well formed |
| Generate.NextPost | src/service/cli/generate.js:30-39 | a post has a listed title, an announce of at most four sentences and a run of neighbouring categories stopping before the last; the pool keeps its multiset |
| Generate.GeneratePosts | src/service/cli/generate.js:29-40 | exactly `count` well-formed posts |
| Generate.Run | src/service/cli/generate.js:44-53 | more than 1000 posts are refused; a negative count throws; otherwise exactly `count` (1 to 1000) well-formed posts |
| FillDb.ConsWellFormed | src/service/cli/filldb.js:34-43 | a well-formed article in front of well-formed ones keeps them all well formed |
| FillDb.NextPost | src/service/cli/filldb.js:35-42 | an article has a listed title, a short announce, categories from distinct positions of the list (1 to n−1 of them when n ≥ 2) and exactly MAX_COMMENTS comments of at most three sentences |
| FillDb.GeneratePosts | src/service/cli/filldb.js:34-43 | exactly `count` well-formed articles; the pools keep their multisets |
| FillDb.Run | src/service/cli/filldb.js:61-66 | no guard of its own: a count that is not an array length (negative, or 2^32 and more) makes `Array(count)` throw; otherwise `count` well-formed articles and the category lines exactly as read go to initDatabase |
| Ranking.WithComments | src/service/api/article.js:116 | the filter is never longer than its input and keeps only articles with comments; `WithCommentsKeeps` states that it keeps all of them |
| Ranking.Insert | src/service/api/article.js:117 | inserting an article lengthens the list by one; `InsertPermutes`, `InsertKeepsOrder` and `InsertWithCount` state where it goes |
| Ranking.SortByComments | src/service/api/article.js:117 | the comparator sort keeps the length; `SortByCommentsSorts` and `SortByCommentsIsStable` state that it is a stable sort, most comments first |
| Ranking.BestCommented | src/service/api/article.js:116-118 | the block has at most four articles; `BestCommentedRanks` and `BestCommentedOmitsOnlyLower` state which ones |
| Ranking.WithCommentsKeeps | src/service/api/article.js:116 | the filter keeps exactly the articles with comments, with their multiplicities |
| Ranking.InsertPermutes | src/service/api/article.js:117 | inserting adds exactly the one article |
| Ranking.InsertKeepsOrder | src/service/api/article.js:117 | inserting into a sorted list keeps it sorted, most comments first |
| Ranking.SortByCommentsSorts | src/service/api/article.js:117 | the sort returns a permutation of its input, most comments first |
| Ranking.InsertWithCount | src/service/api/article.js:117 | inserting keeps the order among articles of any one comment count |
| Ranking.SortByCommentsIsStable | src/service/api/article.js:117 | the sort is stable: articles with equal counts keep their relative order |
| Ranking.BestCommentedIsPrefix | src/service/api/article.js:118 | the block is a prefix of the ranking |
| Ranking.BestCommentedRanks | src/service/api/article.js:116-118 | the block has min(4, articles with comments) articles, all with comments, from the input, most comments first |
| Ranking.BestCommentedOmitsOnlyLower | src/service/api/article.js:116-118 | an article with comments left out of the block has no more comments than the block's last, and the block is full |
| Ranking.BestCommentedKeepsTies | src/service/api/article.js:116-118 | within the block, articles with equal counts appear in input order |
| Ranking.WithCountOfPrefix | src/service/api/article.js:118 | a prefix's articles of one count are a prefix of the whole list's |
| ArticleApi.ListArticles | src/service/api/article.js:15-21 | findPage is called exactly when `limit` or `offset` is truthy, with the query's values; `comments` is passed on either way |
| ArticleApi.EmptyPagingListsAll | src/service/api/article.js:17 | an absent or empty limit and offset list everything |
| ArticleApi.GetArticle | src/service/api/article.js:33-43 | 200 with the article exactly when it exists, otherwise 404 "Not found article with id X" |
| ArticleApi.CreateArticle | src/service/api/article.js:47-51 | 201 with the created article |
| ArticleApi.UpdateArticle | src/service/api/article.js:55-63 | 200 "Article successfully updated" exactly when the update succeeded, otherwise 404 |
| ArticleApi.CommentIds | src/service/api/article.js:70 | the ids of the article's comments, in order |
| ArticleApi.DeleteComments | src/service/api/article.js:72 | one result per id, true exactly for an id present and not deleted earlier; afterwards the store is the old one without exactly those ids, every other comment unchanged |
| ArticleApi.AllCommentsDeleted | src/service/api/article.js:79 | every delete succeeds if and only if the ids are distinct and all present |
| ArticleApi.SucceededMeansDistinct | src/service/api/article.js:79 | all deletes succeeding means distinct, present ids |
| ArticleApi.DistinctMeansSucceeded | src/service/api/article.js:79 | distinct, present ids mean every delete succeeds |
| ArticleApi.DeleteArticle | src/service/api/article.js:67-86 | reading the comments of a missing article fails exactly when the article does not exist |
| ArticleApi.DeleteArticleCascade | src/service/api/article.js:67-86 | the article and its comments are gone whatever the answer and every other comment is kept as it was; 200 exactly when every comment was present once, otherwise 404 "Some comments not found" |
| ArticleApi.ListComments | src/service/api/article.js:89-95 | the article's comments, always 200 |
| ArticleApi.DeleteComment | src/service/api/article.js:98-108 | 404 exactly when there is no such comment, and then nothing changes; otherwise 200 and only that comment is removed |
| ArticleApi.CreateComment | src/service/api/article.js:111-126 | always 201 with the created comment; the event is emitted exactly when there is a socket server |
| ArticleApi.CreateCommentBroadcastsRanking | src/service/api/article.js:114-122 | the event carries the comment and at most four articles with comments, from the list, most first; an article left out has no more comments than the last sent |
| CategoryApi.Plus | src/service/api/category.js:56 | unary `+` reads a string as `NumberOf` does (the empty string is 0) and `undefined` as NaN; an array reads as its `join(',')`: empty is 0, one item reads as that item, two or more are NaN |
| CategoryApi.PlusOfArrays | src/service/api/category.js:56 | `+["7"]` is 7, `+[]` is 0 and `+[1, 2]` is NaN |
| CategoryApi.Find | src/service/api/category.js:56 | `find` gives the first row whose id equals `+categoryId`, or none when no row matches |
| CategoryApi.DeleteCategory | src/service/api/category.js:53-75 | 404 when no listed category matches; 403 when its count is non-zero; 404 when the table has no such row; otherwise 200 and exactly that row is removed |
| CategoryApi.DeleteCategoryChangesOnlyOnSuccess | src/service/api/category.js:53-75 | the answer is 200, 403 or 404; the table changes only on 200, and then loses exactly the category numbered `+categoryId` |
| CategoryApi.DeleteListedCategory | src/service/api/category.js:55-72 | when the listing agrees with the table, 404 means there is no such category and 200 means the table changed |
| CategoryApi.ListCategories | src/service/api/category.js:12-18 | the `count` flag goes to findAll as it came, always 200 |
| CategoryApi.GetCategory | src/service/api/category.js:21-30 | always 200 with `{category, count, articlesByCategory}`, even when the category is null |
| CategoryApi.CreateCategory | src/service/api/category.js:33-37 | 201 with the created category |
| CategoryApi.UpdateCategory | src/service/api/category.js:40-50 | 200 "Category successfully updated" exactly when the update succeeded, otherwise 404 "Not found article with id X", the text the handler writes for categories too |
| SearchApi.Search | src/service/api/search.js:10-23 | a falsy query (absent means empty) is a 400 "Search query should not be empty" and the service is not called; otherwise 200 with the service's results for that query |
| SearchApi.SearchStatus | src/service/api/search.js:11-22 | an absent or empty query is a 400; any non-empty query is a 200, even with no results |
| Schemas.Messages | src/service/middlewares/instance-validator.js:14 | one message per detail, in detail order |
| Schemas.MessagesAppend | src/service/middlewares/instance-validator.js:14 | messages distribute over concatenated details |
| Schemas.CheckString | src/service/middlewares/schemas.js:23-50 | `Joi.string()` with `.required()`, `.min` and `.max`, lengths in UTF-16 code units; `CheckStringPasses` states when it reports nothing |
| Schemas.WideTitlePasses | src/service/middlewares/schemas.js:36-39 | a title of six characters beyond U+FFFF is twelve code units long and passes `min(10)` |
| Schemas.CheckStringPasses | src/service/middlewares/schemas.js:23-50 | a string rule reports nothing exactly when the value satisfies its presence, type and length bounds |
| Schemas.Unknown | src/service/middlewares/schemas.js:23-56 | at most one detail per sent key, each a "not allowed" detail for a key the schema does not list |
| Schemas.UnknownEmpty | src/service/middlewares/schemas.js:23-56 | no such detail exactly when every key is listed |
| Schemas.CommentDetails | src/service/middlewares/schemas.js:23-28 | what commentSchema reports: the `text` rule, then the unknown keys; `CommentValidIff` states when it is empty |
| Schemas.CommentValidIff | src/service/middlewares/schemas.js:23-28 | a comment is accepted exactly when `text` is a string of 20 to 500 characters and nothing else is sent |
| Schemas.CommentLengthMessages | src/service/middlewares/schemas.js:24-26 | a text under 20 characters reports TEXT_MIN, one over 500 reports TEXT_MAX |
| Schemas.AsNumber | src/service/middlewares/schemas.js:32 | Joi's number conversion: a number passes as it is, a string converts exactly when it is a decimal integer (so to an integer), anything else is not a number |
| Schemas.CheckCategory | src/service/middlewares/schemas.js:31-34 | the rules of one `categories` item: at most two details, each on that item's path; `CheckCategoryPasses` states when there are none |
| Schemas.CheckCategoryItems | src/service/middlewares/schemas.js:31-34 | the items' details in order, at most two per item; `CheckCategoryItemsPasses` states when there are none |
| Schemas.CheckCategoryPasses | src/service/middlewares/schemas.js:32-34 | an item passes exactly when it is a positive integer (after decimal coercion) |
| Schemas.CheckCategoryItemsPasses | src/service/middlewares/schemas.js:31-34 | the items pass exactly when each of them does |
| Schemas.NullCategoryMessage | src/service/middlewares/schemas.js:32-34 | a `null` item draws the CATEGORIES message |
| Schemas.CheckCategories | src/service/middlewares/schemas.js:31-35 | `Joi.array().items(...).min(1).required()`: the item details, then `array.min` for an empty array; `ArticleValidIff` states when it passes |
| Schemas.CheckCategoriesPasses | src/service/middlewares/schemas.js:31-35 | `categories` reports nothing exactly when it is a non-empty array of positive integers |
| Schemas.ArticleKeysPass | src/service/middlewares/schemas.js:30-51 | no unknown-key detail exactly when only the five schema keys are sent |
| Schemas.ArticleDetails | src/service/middlewares/schemas.js:30-51 | what articleSchema reports, key by key in declaration order, then the unknown keys; `ArticleValidIff` states when it is empty |
| Schemas.ArticleValidIff | src/service/middlewares/schemas.js:30-51 | an article is accepted exactly when categories is a non-empty array of positive integers, title, announce and fullText are within 10–70, 100–300 and 100–1000 characters, photo is absent or a non-empty string, and no other key is sent |
| Schemas.ArticleCollectsAll | src/service/middlewares/schemas.js:36-47 | a short title and an over-long full text are both reported, title first |
| Schemas.MessageOfPrefix | src/service/middlewares/instance-validator.js:14 | a message of leading details is a message of all of them |
| Schemas.ArticleCategoriesMessage | src/service/middlewares/schemas.js:31-35 | an array of categories holding `null` draws the CATEGORIES message |
| Schemas.CheckId | src/service/middlewares/schemas.js:54-55 | `Joi.number().integer().min(1)` on an optional id; `CheckIdPasses` states when it reports nothing |
| Schemas.CheckIdPasses | src/service/middlewares/schemas.js:54-55 | an id passes exactly when it is absent or an integer from 1 |
| Schemas.RouteParamsDetails | src/service/middlewares/schemas.js:53-56 | what routeParamsSchema as written reports: `offerId`, `commentId`, then the unknown keys; `RouteParamsRefuseArticleId` states that it refuses `articleId` |
| Schemas.RouteParamsRefuseArticleId | src/service/middlewares/schemas.js:53-56 | as written, `{articleId}` is refused whatever its value, because `articleId` is not a key of the schema |
| Schemas.ArticleRouteParamsDetails | src/service/middlewares/schemas.js:53-56 | the evidently intended schema with `articleId`: every detail is about `articleId` or `commentId`, or is an unknown key that was sent |
| Schemas.ArticleRouteParamsValidIff | src/service/middlewares/schemas.js:53-56 | with `articleId` in place of `offerId`, the parameters pass exactly when each id is absent or an integer from 1 and nothing else is present |
| Schemas.DecimalIntegerOfDigit | src/service/middlewares/schemas.js:54 | a single digit coerces to its value |
| Schemas.ArticleRouteParamsAcceptSeven | src/service/middlewares/schemas.js:54 | with the corrected schema, `/articles/7` passes |
| Schemas.ArticleRouteParamsRefuseZero | src/service/middlewares/schemas.js:54 | with the corrected schema, `/articles/0` is refused by `min(1)` alone |
| Schemas.Lookup | src/service/middlewares/schemas.js:58-62 | `schemas[type]` is the article schema, the comment schema, the route-parameter schema for `"routeParamsSchema"`, or `undefined` for any other name; a later key of the literal wins a clash |
| Schemas.Details | src/service/middlewares/schemas.js:58-62 | the details of the schema `Lookup` found, for the object and its keys |
| Validators.DetailsText | src/service/middlewares/instance-validator.js:14 | the 400 text: empty without details, otherwise it starts with the first detail's message |
| Validators.DetailsTextLines | src/service/middlewares/instance-validator.js:14 | the 400 text splits back, line by line, into the messages in detail order |
| Validators.InstanceValidator | src/service/middlewares/instance-validator.js:6-19 | an unknown type throws; `next()` exactly when the schema reports nothing; otherwise 400 with every message joined by "\n" |
| Validators.InstanceValidatorReportsAll | src/service/middlewares/instance-validator.js:10-15 | validation does not stop at the first problem: a short title and an over-long text in one request give a 400 with both messages |
| Validators.ArticleMessagesBoth | src/service/middlewares/schemas.js:36-47 | both messages are among the article's details |
| Validators.KeysValidator | src/service/middlewares/instanceValidator.js:5-17 | `next()` exactly when every listed key is a key of the body; otherwise 400 "Bad request" |
| Validators.KeysValidatorIgnoresExtras | src/service/middlewares/instanceValidator.js:7-8 | extra keys never cause a rejection, and an empty key list lets everything through |
| Validators.KeysValidatorIgnoresValues | src/service/middlewares/instanceValidator.js:7-8 | only keys count: bodies with the same keys get the same answer |
| Validators.FirstProblem | src/service/middlewares/route-params-validator.js:8-14 | `next()` exactly when nothing is reported; otherwise 400 with the first detail's message |
| Validators.RouteParamsValidator | src/service/middlewares/route-params-validator.js:6-15 | the middleware as written: `FirstProblem` of the as-written schema; `RouteParamsValidatorRefusesArticleRoutes` states its answer on article routes |
| Validators.RouteParamsValidatorRefusesArticleRoutes | src/service/middlewares/route-params-validator.js:6-15 | as written, every request with an `:articleId` parameter is answered 400 |
| Validators.ArticleRouteParamsValidator | src/service/middlewares/route-params-validator.js:6-15 | the middleware with the corrected schema: `next()` or a 400, never anything else |
| Validators.ArticleRouteParamsValidatorPasses | src/service/middlewares/route-params-validator.js:6-15 | with the corrected schema, `next()` exactly when both ids are absent or integers from 1 and nothing else is present; otherwise 400 |
| Validators.UserValidator | src/service/middlewares/user-validator.js:6-23 | schema errors give a 400 with all messages and no lookup; a registered e-mail gives a 400 "Электронный адрес уже используется"; `next()` exactly when both checks pass; the lookup key is `body.email` as sent |
| Json.OnWire | src/express/api.js:63-68 | after the JSON round trip a value holds no `undefined`, and a non-array value other than `undefined` is unchanged |
| Json.ObjectOnWire | src/express/api.js:63-68 | properties holding `undefined` disappear and the others are serialised |
| Json.GetOnWire | src/express/api.js:63-68 | reading a property after the round trip gives `undefined` or the serialised value |
| ArticlesRoutes.AsArray | src/express/routes/articles-routes.js:40 | `categories` is always an array: an array is kept, anything else is wrapped |
| ArticlesRoutes.FormFields | src/express/routes/articles-routes.js:36-41 | the payload has exactly title, announce (from `announcement`), fullText and an array of categories |
| ArticlesRoutes.AddPayload | src/express/routes/articles-routes.js:36-45 | `photo` is added exactly when a file was uploaded, and the form fields are kept |
| ArticlesRoutes.AddArticle | src/express/routes/articles-routes.js:47-54 | a redirect to `/my` exactly when the API accepted; otherwise `new-post` again with the messages |
| ArticlesRoutes.NoCategoryTicked | src/express/routes/articles-routes.js:40 | with no category ticked the API receives `[null]` and answers with the CATEGORIES message |
| ArticlesRoutes.Merge | src/express/routes/articles-routes.js:79 | `Object.assign`: the keys of both, the source's values winning |
| ArticlesRoutes.Record.Assign | src/express/routes/articles-routes.js:79 | assigning changes the record in place, returns the same object and leaves the merge |
| ArticlesRoutes.EditUpdateAsWritten | src/express/routes/articles-routes.js:68-77 | `updateArticle` as written: no `photo`, and a `picture` exactly when a file was uploaded, holding its stored name |
| ArticlesRoutes.EditUploadMisfiled | src/express/routes/articles-routes.js:75-79 | as written, a new upload leaves the old `photo` and files the new name under `picture`, a key the schema does not know |
| ArticlesRoutes.EditUpdate | src/express/routes/articles-routes.js:68-77 | `updateArticle` with the upload filed as the add form files it: no `picture`, and a `photo` exactly when a file was uploaded, holding its stored name |
| ArticlesRoutes.EditMerge | src/express/routes/articles-routes.js:68-79 | with the upload under `photo`, the merge overwrites exactly the form fields (and photo when uploaded) and keeps every other property |
| ArticlesRoutes.EditedRecordRefused | src/express/routes/articles-routes.js:66-79 | the merged record keeps the fetched article's own properties, so one the schema does not list (an `id`, say) makes the API refuse the edit even with the upload under `photo` |
| ArticlesRoutes.EditArticle | src/express/routes/articles-routes.js:63-89 | the handler with the upload filed under `photo` (as written it goes under `picture`, see `EditUploadMisfiled`): the record is merged in place and sent; a redirect to `/my` exactly when the API accepted; otherwise `edit-post` with the messages |
| ArticlesRoutes.CommentPayload | src/express/routes/articles-routes.js:103 | the payload is exactly `{text: comment}` |
| ArticlesRoutes.SubmitComment | src/express/routes/articles-routes.js:98-110 | the comment goes to the article's id; a redirect to its page on success, otherwise `post` with the typed comment kept |
| MainRoutes.PageNumber | src/express/routes/main-routes.js:16-17 | an absent page is 1; an empty `?page=` is 0; any other is its decimal value, or NaN |
| MainRoutes.EmptyPageStartsBeforeFirst | src/express/routes/main-routes.js:16-19 | an empty `?page=` is page 0, and the home page asks for offset −8 |
| MainRoutes.PageWindow | src/express/routes/main-routes.js:18-19 | limit is 8 and offset is a multiple of 8 that starts page `page` |
| MainRoutes.TotalPages | src/express/routes/main-routes.js:25 | ⌈count/8⌉: 0 for no articles, else the fewest pages of eight holding them all |
| MainRoutes.PagesInRange | src/express/routes/main-routes.js:18-25 | a page is within totalPages exactly when its offset points at an existing article |
| MainRoutes.LastComments | src/express/routes/main-routes.js:29 | the first min(4, n) comments, in API order |
| MainRoutes.HomePage | src/express/routes/main-routes.js:14-31 | the page number, window, total pages, best-commented block and last comments of the home page; `HomePageShowsPage` states what it asks for and shows |
| MainRoutes.HomePageShowsPage | src/express/routes/main-routes.js:14-31 | the page's window is asked for; the articles are shown in API order with the page number and the total pages their count makes; the best-commented block has at most four of the page's articles, all with comments, most first; the first four comments at most are shown |
| MainRoutes.RegisterPayload | src/express/routes/main-routes.js:40-48 | passwordRepeated comes from `repeat-password`; avatar is present exactly when a file was uploaded |
| MainRoutes.Register | src/express/routes/main-routes.js:38-57 | a redirect to `/login` exactly when the API accepted; otherwise `sign-up` with the messages and the payload |
| MainRoutes.SearchPage | src/express/routes/main-routes.js:83-92 | an API failure renders an empty result list; otherwise the results, with the query and user |
| MainRoutes.Session.Logout | src/express/routes/main-routes.js:78-81 | `user` is removed from the session, every other key is kept, and the visitor is sent to `/` |
| Upload.Extension | src/express/middlewares/upload.js:15 | the extension is the suffix after the last '.', holds no '.', and is the whole name when there is no '.' |
| Upload.StoredName | src/express/middlewares/upload.js:14-16 | `${uniqueName}.${extension}`; `StoredNameParts` states that it splits back into the id and the extension |
| Upload.StoredNameParts | src/express/middlewares/upload.js:13-17 | `<id>.<ext>` splits back into the id and the extension, so a stored file keeps its extension |
| Upload.Accepts | src/express/middlewares/upload.js:20-22 | a file is accepted exactly when its mimetype is listed |
| Text.Join | src/service/cli/fill.js:55 | `join(sep)` starts with the first part |
| Text.Split | src/express/middlewares/upload.js:15 | `String.prototype.split` with a one-character separator always gives at least one part |
| Text.LastPartWhole | src/express/middlewares/upload.js:15 | a text with no separator in it is its own last part |
| Text.LastPartOfTail | src/express/middlewares/upload.js:15 | otherwise the last part is that of the text after its first character |
| Text.IntToString | src/service/cli/fill.js:101 | a rendered integer holds no quote and no line break |
| Text.TrimStart | src/service/cli/fill.js:76 | parseInt's leading-space skip leaves a suffix of the text that does not start with white space |
| Text.DigitsValueOfNat | src/service/cli/fill.js:76 | the digits of a natural number have that number as their value |
| Text.ParseIntOfNatString | src/service/cli/fill.js:76 | parseInt reads back every rendered natural number |
| Text.ParseIntOfNegative | src/service/cli/fill.js:76 | parseInt reads back every rendered negative number |
| Text.SplitAfterPlainPrefix | src/express/middlewares/upload.js:15 | a separator-free prefix joins the first part of the split |
| Text.SplitSingle | src/express/middlewares/upload.js:15 | a text splits into one part exactly when it holds no separator |
| Text.LastPart | src/express/middlewares/upload.js:15 | `pop()` on the parts of a split gives one of the parts |
| Text.LastPartIsSuffix | src/express/middlewares/upload.js:15 | `split(c).pop()` is a separator-free suffix, preceded by the separator unless it is the whole text |
| Text.JoinSplit | src/service/cli/generate.js:22 | joining the parts of a split with the separator gives the text back |
| Text.SplitAvoids | src/service/cli/generate.js:22 | no part of a split holds the separator |
| Text.SplitJoin | src/service/cli/generate.js:22 | splitting a join of separator-free parts gives the parts back |
| Text.JoinAvoids | src/service/cli/fill.js:90 | a join holds no character that neither its parts nor its separator hold |
| Text.WithTrailingCommas | src/service/cli/fill.js:90 | every line but the last gains a comma |
| Text.JoinCommaNewline | src/service/cli/fill.js:90 | joining with ",\n" is joining the comma-ended lines with "\n" |
| Text.ParseIntOfIntToString | src/service/cli/fill.js:76 | parseInt reads back every integer a template literal renders |
| Text.ParseIntOfDigits | src/service/cli/fill.js:76 | a run of digits reads as its value |
| Text.ParseIntOfMinusDigits | src/service/cli/fill.js:76 | a minus sign and digits read as the negated value |
| Text.ParseIntOfPlainNumber | src/service/cli/fill.js:76 | a signed run of digits with nothing around it reads as its signed value |
| Text.IntToStringChars | src/service/cli/fill.js:101 | a rendered integer is non-empty and made of '-' and digits |
| Text.ParseInt | src/service/cli/fill.js:76 | `Number.parseInt(s, 10)`: leading white space, a sign, the longest run of digits, NaN without a digit; `ParseIntOfPlainNumber` and `ParseIntOfIntToString` state what it reads |
| Text.DecimalInteger | src/service/middlewares/schemas.js:32 | Joi's number coercion of a string, restricted to a sign and decimal digits; `DecimalIntegerOfIntToString` states that it reads rendered integers back |
| Text.NumberOf | src/express/routes/main-routes.js:17 | unary `+` on a string: the empty string is 0, any other string is read as `DecimalInteger` reads it |
| Text.NumberOfAgreesWithParseInt | src/service/api/category.js:56 | `+s` and `parseInt(s, 10)` agree on every non-empty string `+s` reads as a number; on the empty string `+` gives 0 and parseInt gives NaN |
| Text.Utf16Length | src/service/middlewares/schemas.js:24 | a string's JavaScript `length`: between its number of characters and twice that |
| Text.Utf16LengthOfBasic | src/service/middlewares/schemas.js:24 | a string without characters beyond U+FFFF has one code unit per character |
| Text.DecimalIntegerOfIntToString | src/service/cli/fill.js:101 | `Number` reads back every integer a template literal renders |
| Text.DecimalIntegerAgreesWithParseInt | src/service/middlewares/schemas.js:32 | every string Joi's number coercion (as modelled) reads as an integer is read the same way by parseInt |

## Left out

- File reads and writes, `Promise.all`, `process.exit`, the database
  connection, `initDatabase`, the logger and console output. `readFile` is
  modelled as its text or `None`; what is written is the value the model
  returns.
- The statement text around the five VALUES lists of `--fill` (the comments,
  `INSERT INTO …`, `ALTER TABLE …`) is not modelled. The model stops at the
  lists themselves.
- An empty table still writes `VALUES` followed by `;` alone. The read-back
  lemmas therefore require at least one row.
- `getRandomDate` (clock and locale formatting) is not modelled. Its one draw
  is still consumed, so later draws keep their call numbers.
- `Math.random` itself is a parameter `rng`. Draws are reals in [0, 1), not
  IEEE doubles.
- The data services and the ORM are abstract stores (`map`s) or parameters.
  This covers `findPage`, `findAll`, `findOne`, `create`, `update`, `search`
  and the counts of `findAll(true)`.
- `GET /api/articles/comments` forwards the service's answer unchanged, so it
  is not modelled.
- The GET pages `/register` and `/login`, `POST /login` (session save with a
  callback), `GET /articles/add`, `/articles/edit/:id`, `/articles/:id` and
  `/articles/category/:id` only forward to the API and render, so they are not
  modelled.
- The socket.io client code, the HTTP client and the server wiring are not
  modelled, except for one part of the client: the JSON round trip its
  request bodies go through (`Json.OnWire`, `Json.ObjectOnWire`).
- `ArticleApi.DeleteArticle`: the article-exist middleware runs first. The
  model still states the unguarded handler, in which a missing article makes
  `article.comments` throw (`None`).
- The concurrent `Promise.all` of the comment deletes in the article DELETE is
  modelled as deletes in list order. Concurrent deletes of a duplicated id
  could both report success, while the model reports only the first.
- Joi internals. Default English messages are approximated. Number coercion
  reads only plain decimal integers: no fractions, exponents, hexadecimal or
  surrounding spaces. The per-key rule order follows the schema declarations.
- Schemas.AsNumber: Joi's `number.unsafe` check is not modelled. That check
  refuses numbers beyond ±(2^53 − 1) and strings whose digits a double cannot
  hold. So a category id or route id such as `"9007199254740993"` passes in the
  model and is refused by Joi.
- `+x` and `Number(x)` (`Text.NumberOf`) are modelled like Joi's coercion:
  they accept only an optional sign and digits. They differ from it on the
  empty string, which `+` reads as 0 and Joi refuses.
- `Schemas.Lookup`: the instance names come from a constants object that does
  not exist, so they are parameters.
- `Upload.StoredName`: the random id `nanoid(10)` and the FILE_TYPES list are
  parameters. The id alphabet is assumed to hold no '.'.
- `Random.ShuffleMovesEveryElement` is stated on positions (a fixed-point-free
  permutation). With duplicate values, an element may equal the one it
  replaces.
- `Ranking.SortByComments`: the in-place sort of the fresh filtered copy is
  modelled as a stable insertion sort on a value. The copy has no other alias,
  so the model does not capture updates in place.

## Findings

| source | as written | input that shows it | evidently intended | confidence | as-written member | corrected member |
|---|---|---|---|---|---|---|
| src/service/middlewares/schemas.js:53-56 | `routeParamsSchema` lists `offerId` and `commentId`, but every article route names its parameter `:articleId` (article.js:32,54,67,89,98,111), and Joi refuses unknown keys | `GET /api/articles/1`: params `{articleId: "1"}` gives 400 `"articleId" is not allowed` | the schema lists `articleId`, so ids are integers from 1 | medium, not executed | Validators.RouteParamsValidatorRefusesArticleRoutes | Validators.ArticleRouteParamsValidatorPasses |
| src/express/routes/articles-routes.js:75-77 | the edit form files a new upload under `picture`, while the add form, the article model and the schema use `photo` | edit an article and upload `a.png`: the payload keeps the old `photo` and adds `picture: "<id>.png"`, which the article schema refuses | the upload is filed under `photo`, as in the add form (articles-routes.js:43-45), which `EditArticle` does; even then the merged record keeps the fetched article's own properties, which the schema refuses too (`EditedRecordRefused`) | medium, not executed | ArticlesRoutes.EditUploadMisfiled | ArticlesRoutes.EditMerge |
