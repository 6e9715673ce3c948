# Camelot-wheel set builder in Dafny

A Dafny model of the engine behind a harmonic-mixing assistant for DJs. The
assistant reads a Rekordbox collection export and normalises every track's key
to the Camelot wheel. It scores transitions between tracks by key relation and
tempo, and ranks the best matches for one track. It orders whole sets greedily
with a one-step lookahead and groups tracks that mix well together. It exports
a set as CSV or M3U. A page state machine ties these together.

One module per source file:

| module | file | what it holds |
|---|---|---|
| `Wrappers`, `Text` | — | `Option`, and the string built-ins the source uses (`trim`, ASCII case mapping, `String(n)`, `toFixed(1)`, `Math.round`, `join`, `split`, single-character `replace`) |
| `Camelot` | lib/camelot.ts | the 24-key table, the reverse name table, the accessors and the circular distance |
| `KeyNormalization` | lib/keyNormalization.ts | `normalizeKey` |
| `Scoring` | lib/scoring.ts | key score, tempo score, transition insight |
| `StableSort` | — | the stable `Array.prototype.sort` the source relies on |
| `Collection` | lib/xmlParser.ts | `getAttr`, `hashStr`, `buildTrack`, `countPlaylists`, `resolvePlaylistTracks` |
| `Ordering` | lib/ordering.ts | the score cache, `greedyOrder`, `findBestSeedIndex`, `generateSetVariants` |
| `MixableGroups` | components/MixableGroups.tsx | `getNeighbors` and the grouping computation |
| `BestMatches` | components/BestMatches.tsx | `getMatches` and its memo |
| `PlaylistSelector` | components/PlaylistSelector.tsx | `countTracksInNode` |
| `SetExport` | components/BestSetOrder.tsx | the CSV and M3U exports and their file names |
| `Page` | app/page.tsx | the stage / cache-invalidation state machine and `stats` |

Modelling choices that apply throughout:

- Camelot keys are a datatype (a number 1..12 and a letter A or B). The
  source's text form, such as "8A", is `KeyText`. It is proved injective, and
  it parses back to the key.
- Tempos and scores are `real`. Caches are explicit state, passed into and
  returned from every operation that touches them.
- Every loop method is proved equal to a pure reference function. Examples are
  the greedy order, the seed choice, the grouping and the reverse table.
- The number parser (`parseFloat`) and XML parsing are inputs, not modelled
  code.

For tempos 120 and 240 with half/double matching on, the candidates are
direct 120, half 0 and double 360. The first least difference wins, so the
mode is 'half' (`Scoring.HalfTimeExample`).

## Model

| member | source | states |
|---|---|---|
| Camelot.AllKeysAreTheWheel | lib/camelot.ts:12-39 | the table has exactly 24 keys, pairwise distinct, and every wheel key is among them |
| Camelot.TableFollowsCircleOfFifths | lib/camelot.ts:12-39 | every entry is at the circle-of-fifths position of its tonic: A entries minor, B entries major, the first synonym is "TONIC MODE", every synonym names the entry's pitch |
| Camelot.MinorRingOnCircleOfFifths | lib/camelot.ts:13-25 | the same for the twelve A entries |
| Camelot.MajorRingOnCircleOfFifths | lib/camelot.ts:26-38 | the same for the twelve B entries |
| Camelot.TonicModePairsDistinct | lib/camelot.ts:12-39 | no two entries share tonic and mode |
| Camelot.AddSynonyms | lib/camelot.ts:44-46 | the inner loop adds every synonym of the entry, mapped to it, and keeps every other name's value |
| Camelot.BuildReverse | lib/camelot.ts:41-47 | the outer loop keeps every name already present and adds every synonym of every entry; a map holding only correct synonyms stays so |
| Camelot.KeyToCamelotInverse | lib/camelot.ts:41-47 | every synonym of every entry maps back to that entry |
| Camelot.SynonymNamesOneKey | lib/camelot.ts:12-39 | no name is a synonym of two keys, so the insertion order of the loop cannot matter |
| Camelot.KeyToCamelotOnlySynonyms | lib/camelot.ts:41-47 | the reverse table holds nothing but synonyms of the key each maps to |
| Camelot.LookupByName | lib/camelot.ts:41-47 | a name is in the reverse table exactly when it reads on the circle of fifths as a key whose synonym it is, and then it maps to that key |
| Camelot.KeyToCamelotOfEntryName | lib/camelot.ts:41-47 | the "TONIC MODE" name of each entry looks up to that entry |
| Camelot.LookupTonicName | lib/camelot.ts:41-47 | for a tonic that is not a flat spelling, "TONIC MODE" is in the table exactly when the tonic is a sharp spelling, and then it maps to its circle-of-fifths key |
| Camelot.LookupTonicNameSharp | lib/camelot.ts:41-47 | every sharp tonic with either mode is in the table at its circle-of-fifths key |
| Camelot.LookupTonicNameFound | lib/camelot.ts:41-47 | a name found in the table whose tonic is not flat has a sharp tonic and maps to that tonic's key |
| Camelot.KeyTextParses | lib/camelot.ts:3 | the text of a key is upper case and parses back to the key |
| Camelot.ParsedTextIsKeyText | lib/camelot.ts:3 | text that parses as a key upper-cases to that key's text |
| Camelot.KeyTextInjective | lib/camelot.ts:3 | distinct keys have distinct texts |
| Camelot.LeadingDigits | lib/camelot.ts:50 | what `parseInt` reads is the longest digit prefix |
| Camelot.ParseIntOfDigits | lib/camelot.ts:50 | `parseInt` of a non-empty digit string is its decimal value |
| Camelot.RemoveTrailingLetter | lib/camelot.ts:50 | removing the first A or B drops the trailing letter of text with no other A or B |
| Camelot.AccessorsOnCamelotText | lib/camelot.ts:49-55 | on valid Camelot text the number is in 1..12, the letter is A or B, and together they give back the upper-cased text |
| Camelot.AccessorsOnKeyText | lib/camelot.ts:49-55 | on a key's text the accessors give the key's own number and letter |
| Camelot.CamelotDistance | lib/camelot.ts:57-65 | the step count is in 0..6, is 0 exactly for equal numbers, and equals the circular step count; `sameLetter` is letter equality |
| Camelot.DistanceSymmetric | lib/camelot.ts:57-65 | the distance does not depend on argument order |
| Camelot.DistanceExamples | lib/camelot.ts:62-63 | 12A and 1A are one step apart, and every key is at distance 0 from itself |
| KeyNormalization.EnharmonicsAreTheTableFlats | lib/keyNormalization.ts:9-15 | the rewritten flats are exactly the flat spellings the wheel's table accepts |
| KeyNormalization.EnharmonicsKeepPitch | lib/keyNormalization.ts:9-15 | each flat is rewritten to the sharp spelling of the same pitch class |
| KeyNormalization.ReplaceAccidentalGlyphs | lib/keyNormalization.ts:31 | the length is kept, no ♭ or ♯ remains, and every other character is kept in place |
| KeyNormalization.ModeWordLength | lib/keyNormalization.ts:44 | a mode word at the start has length 0, 3 or 5 and begins with M |
| KeyNormalization.LeadingSpaces | lib/keyNormalization.ts:44 | the count is the longest run of leading whitespace |
| KeyNormalization.StripModeWords | lib/keyNormalization.ts:44 | the mode-word deletion never lengthens the text |
| KeyNormalization.StripModeWordsKeepsFirst | lib/keyNormalization.ts:44 | a first character that is neither a space nor an M is kept |
| KeyNormalization.TonicPrefix | lib/keyNormalization.ts:51 | a matched tonic is a prefix of one or two characters |
| KeyNormalization.CanonicalTonic | lib/keyNormalization.ts:56-61 | the canonical tonic is never a flat spelling |
| KeyNormalization.NormalizeBlank | lib/keyNormalization.ts:18-20 | the result is the empty one exactly for a missing, blank, 'NA' or 'None' key |
| KeyNormalization.TonicKeyKnown | lib/keyNormalization.ts:63-68 | a tonic and a mode always give a non-empty canonical name |
| KeyNormalization.NormalizeCamelotText | lib/keyNormalization.ts:25-28 | Camelot text, in any case and with surrounding spaces, is echoed upper-cased with its key |
| KeyNormalization.NormalizeKeyText | lib/keyNormalization.ts:25-28 | the text of every key normalises to that key |
| KeyNormalization.MinorShorthandNeverEndsInMa | lib/keyNormalization.ts:45 | a minor shorthand ends in M, so the extra `endsWith('MA')` test never rejects one |
| KeyNormalization.DetectModeCases | lib/keyNormalization.ts:36-48 | the mode is minor exactly when a minor word is present, or there is no major word and the stripped text is a minor shorthand |
| KeyNormalization.NormalizeTonic | lib/keyNormalization.ts:50-68 | text that starts with a tonic gives "TONIC MODE", the display form with 'm' for minor, and a key exactly when the tonic is a sharp spelling, at its circle-of-fifths position |
| KeyNormalization.NormalizeNoTonic | lib/keyNormalization.ts:51-54 | text with no tonic has no key and is echoed as its display form |
| KeyNormalization.NormalizeTonicText | lib/keyNormalization.ts:22-68 | non-Camelot text that starts with a tonic normalises to that tonic with the mode the text gives |
| KeyNormalization.NormalizeAfterAccidentalTonic | lib/keyNormalization.ts:22-68 | text starting with a tonic and an accidental gives that tonic, canonicalised, with the mode the rest of the text gives |
| KeyNormalization.AccidentalTonicText | lib/keyNormalization.ts:22-51 | such text is neither blank nor Camelot text, its tonic is that prefix, and its mode is read from the rest |
| KeyNormalization.DetectModeAfterTonic | lib/keyNormalization.ts:36-48 | after an accidental tonic, only the rest of the text decides the mode |
| KeyNormalization.SameCanonicalTonic | lib/keyNormalization.ts:56-68 | two accidental tonics with the same canonical spelling normalise alike whatever follows |
| KeyNormalization.FlatCanonicalAsSharp | lib/keyNormalization.ts:9-15 | a flat spelling and its sharp rewrite share the canonical tonic |
| KeyNormalization.SharpNotRewritten | lib/keyNormalization.ts:59-61 | a sharp spelling is never rewritten |
| KeyNormalization.FlatNormalizesAsSharp | lib/keyNormalization.ts:56-68 | a flat tonic and its sharp spelling normalise alike whatever follows ("Db minor" and "C# minor") |
| KeyNormalization.DetectModeOfName | lib/keyNormalization.ts:36-48 | "TONIC MINOR" reads as minor and "TONIC MAJOR" as major |
| KeyNormalization.NormalizeTonicModeName | lib/keyNormalization.ts:17-69 | "TONIC MODE" for a sharp tonic normalises to that tonic and mode |
| KeyNormalization.NormalizeEntryName | lib/keyNormalization.ts:17-69 | round trip through the table: the name of every entry normalises to that entry's key |
| KeyNormalization.NormalizedKeyFields | lib/keyNormalization.ts:17-69 | a key comes only with a non-empty canonical name and non-blank text; an empty canonical name comes with no key and the raw text (empty when blank) as display form |
| Scoring.ComputeKeyScore | lib/scoring.ts:33-61 | each relation holds exactly under its own condition on the circular step count and the letters, with its score; the first matching rule wins |
| Scoring.KeyScoreSymmetric | lib/scoring.ts:33-61 | swapping the keys changes neither score nor relation |
| Scoring.KeyScoreValues | lib/scoring.ts:46-60 | the score is one of 1, 0.9, 0.85, 0.7, 0.2 or 0; 'energy+2' only under Creative; 0 exactly for 'other' under Strict |
| Scoring.KeyScoreByDistance | lib/scoring.ts:33-61 | the relation is the one the Camelot distance gives |
| Scoring.ScaleThresholds | lib/scoring.ts:72-73 | the scaled thresholds keep the scores and scale each delta |
| Scoring.BpmScoreTable | lib/scoring.ts:63-78 | the tempo score as one piecewise definition over the scaled thresholds, 0.1 past the last |
| Scoring.BpmScoreNonIncreasingInDelta | lib/scoring.ts:70-78 | a larger tempo difference never scores higher |
| Scoring.BpmScoreNonDecreasingInTolerance | lib/scoring.ts:70-78 | a larger tolerance never scores lower |
| Scoring.BpmScoreBounds | lib/scoring.ts:70-78 | the tempo score lies in [0.1, 1] |
| Scoring.ComputeBpmScore | lib/scoring.ts:80-99 | the difference is non-negative and the score is the threshold score of that difference |
| Scoring.BpmScoreChoice | lib/scoring.ts:85-97 | without half/double the direct difference is used; with it, the least candidate, the earliest on ties |
| Scoring.HalfTimeExample | lib/scoring.ts:85-97 | 120 against 240 matches at half time with difference 0 |
| Scoring.BpmScoreAsymmetric | lib/scoring.ts:89-90 | only the second tempo is scaled, so swapping the tempos changes the match |
| Scoring.BlendBetween | lib/scoring.ts:112 | with a weight in [0, 1] the total lies between the key and tempo scores |
| Scoring.ScoreTransition | lib/scoring.ts:101-118 | the ids are passed through, the difference is non-negative, and the total is in [0, 1] for valid parameters |
| Scoring.ScoreTransitionParts | lib/scoring.ts:110-112 | the parts are the key score and the tempo score of the two tracks, and the total lies between them |
| Scoring.ExplanationNamesRelation | lib/scoring.ts:114-115 | the explanation opens with "Key: " and the relation's name |
| StableSort.SortBy | lib/scoring.ts:92 | the sort is a permutation |
| StableSort.SortByIsSorted | lib/scoring.ts:92 | the result ascends by key |
| StableSort.SortByIsStable | lib/scoring.ts:92 | for every key, the elements with it keep their input order |
| StableSort.SortByHead | lib/scoring.ts:92-93 | the head of the sort is the earliest element of least key |
| Collection.CompleteTracks | lib/ordering.ts:103 | the filter keeps exactly the complete tracks |
| Collection.FindAttrSpec | lib/xmlParser.ts:40-45 | the inner loop finds the first attribute that answers to the alias with a usable value, and none only when there is none |
| Collection.GetAttrSpec | lib/xmlParser.ts:38-48 | `getAttr` returns the value of the first (alias, attribute) pair with a case-insensitive name match and a usable trimmed value, aliases first, and '' when there is none |
| Collection.GetAttrUsable | lib/xmlParser.ts:42-43 | the result is empty or usable: not 'NA' and not 'None' |
| Collection.ToInt32 | lib/xmlParser.ts:33 | `| 0` and `Math.imul` reduce modulo 2^32 to a signed 32-bit value |
| Collection.HashUnits | lib/xmlParser.ts:31-34 | the running hash stays a signed 32-bit value |
| Collection.HashIsPolynomial | lib/xmlParser.ts:31-34 | the wrapping hash equals the polynomial hash in base 31 modulo 2^32 |
| Collection.NatToBase36 | lib/xmlParser.ts:35 | base 36 uses only base-36 digits and has no leading zero |
| Collection.Base36RoundTrip | lib/xmlParser.ts:35 | reading the base-36 text back gives the number |
| Collection.HashStr | lib/xmlParser.ts:30-36 | an id is non-empty base-36 text |
| Collection.HashStrMeaning | lib/xmlParser.ts:30-36 | the id reads back as the magnitude of the polynomial hash reduced to 32 bits, at most 2^31 |
| Collection.BuildTrack | lib/xmlParser.ts:50-72 | every built track is well formed: a complete track has a key, a key comes with its texts, a tempo is never 0, and an incomplete track lacks a tempo or a key |
| Collection.BuildTrackFields | lib/xmlParser.ts:50-72 | each field in terms of what `getAttr` found: default title and artist, the key text as found (none when empty), the normaliser's key, canonical name and display form, the id as the hash of title, artist, tempo text and key text, a tempo only when it parses to a non-zero number, complete exactly when the tempo parses and a key is found |
| Collection.ZeroTempoStillComplete | lib/xmlParser.ts:58-65 | a tempo that parses to 0 leaves the track complete but without a tempo |
| Collection.TrackFromMetadata | lib/xmlParser.ts:59 | equal title, artist, tempo text and key text give an equal id, and with the same parser an equal track |
| Collection.CountPlaylistsPositive | lib/xmlParser.ts:177-184 | the count is positive exactly when a playlist node occurs in the forest |
| Collection.HasPlaylistsMeaning | lib/xmlParser.ts:172 | `hasPlaylists` holds exactly when a playlist node occurs somewhere in the tree |
| Collection.KnownIdsCounts | lib/xmlParser.ts:192-195 | each known id is kept as often as it occurs; unknown ids are dropped |
| Collection.ResolvePlaylistTracks | lib/xmlParser.ts:187-197 | the result is the map's track for each known id, in playlist order, repeats kept |
| Ordering.GetCachedScore | lib/ordering.ts:14-32 | a hit returns the stored entry; a miss scores and stores under the key; every other entry is kept |
| Ordering.ClearScoreCache | lib/ordering.ts:34-36 | the cache is empty afterwards |
| Ordering.CacheKeyInjective | lib/ordering.ts:19 | with ids free of '\|', the key determines both ids |
| Ordering.CachedScoreSound | lib/ordering.ts:14-32 | with a sound cache and ids that identify tracks, the memo returns the true score and stays sound |
| Ordering.StaleEntryAfterParamsChange | lib/ordering.ts:19 | the key leaves out the parameters, so after they change a stored entry is returned unchanged |
| Ordering.FirstMaxIndexIsFirstMax | lib/ordering.ts:68-71 | the strict `>` scan finds a greatest value, and every earlier value is strictly smaller |
| Ordering.Remove | lib/ordering.ts:74 | `splice(k, 1)` removes exactly element `k` and keeps the order |
| Ordering.RemoveCounts | lib/ordering.ts:74 | removing takes exactly that element out of the multiset |
| Ordering.LookaheadIsBest | lib/ordering.ts:56-66 | the lookahead is the largest of 0 and the scores to the other tracks in the window of 20 |
| Ordering.TransitionsArePairScores | lib/ordering.ts:75 | transition `k` is the score from track `k` to track `k + 1` |
| Ordering.GreedyTailPermutation | lib/ordering.ts:48-77 | the greedy continuation uses every remaining track exactly once |
| Ordering.MeanTotalBounds | lib/ordering.ts:79-80 | the mean of scores in [0, 1] is in [0, 1], and 0 with no transitions |
| Ordering.GreedyOrderPermutation | lib/ordering.ts:38-83 | every track is ordered exactly once, starting from the seed |
| Ordering.GreedyOrderTransitions | lib/ordering.ts:38-83 | one transition per consecutive pair, each that pair's score; the total is in [0, 1] and 0 for one track |
| Ordering.GreedyPicksFirstBest | lib/ordering.ts:53-74 | each step takes the earliest remaining track of greatest value, score plus weighted lookahead |
| Ordering.LookaheadLoop | lib/ordering.ts:56-66 | the lookahead loop computes the reference lookahead and keeps the cache sound |
| Ordering.ChooseNext | lib/ordering.ts:50-72 | the choice loop returns the reference next index and keeps the cache sound |
| Ordering.AppendNext | lib/ordering.ts:74-76 | one outer pass moves the chosen track over, records its transition, and keeps the greedy order's result |
| Ordering.GreedyOrder | lib/ordering.ts:38-83 | the method computes the reference greedy order and keeps the cache sound |
| Ordering.SeedSampleShape | lib/ordering.ts:87-92 | the sample is the first 50 tracks without the candidate |
| Ordering.SeedIndexPicksFirstBest | lib/ordering.ts:85-100 | with more than three tracks the seed has the greatest mean against its sample and no earlier track ties it |
| Ordering.SeedAverage | lib/ordering.ts:91-96 | the inner loop computes the mean cached score to the sample |
| Ordering.BestAfterMean | lib/ordering.ts:97 | after one more mean, the running best is still the first greatest |
| Ordering.FindBestSeedIndex | lib/ordering.ts:85-100 | the method returns the reference seed, 0 for up to three tracks, and keeps the cache sound |
| Ordering.VariantsCount | lib/ordering.ts:102-116 | no variants below two complete tracks, otherwise exactly three |
| Ordering.VariantShape | lib/ordering.ts:106-115 | each variant has its label, holds every complete track once, starts at the seed, and has a total in [0, 1] |
| Ordering.GenerateSetVariants | lib/ordering.ts:102-116 | the method computes the reference variants under the parameters and keeps the cache sound |
| MixableGroups.DedupSpec | components/MixableGroups.tsx:29 | `[...new Set(xs)]` keeps every element once and nothing else |
| MixableGroups.Wrap | components/MixableGroups.tsx:22 | for every argument the source passes, `wrap` gives the wheel number congruent to it |
| MixableGroups.NeighborCount | components/MixableGroups.tsx:19-30 | the key comes first, then 3 more, or 5 more under Creative, all distinct |
| MixableGroups.NeighborsAreRelated | components/MixableGroups.tsx:19-30 | a key is a neighbour exactly when the key scorer's relation to it is not 'other' |
| MixableGroups.BandHoldsTempo | components/MixableGroups.tsx:42 | a track's band holds its tempo: band ≤ bpm < band + 4 |
| MixableGroups.AscendingSet | components/MixableGroups.tsx:51 | the sorted set ascends strictly and holds exactly the given values |
| MixableGroups.BandsSpec | components/MixableGroups.tsx:40-51 | the bands ascend, and a value is a band exactly when some complete track lies in it |
| MixableGroups.InBandMember | components/MixableGroups.tsx:52 | the band filter keeps exactly the tracks of the band |
| MixableGroups.CollectionKeysMember | components/MixableGroups.tsx:46 | the key list holds exactly the keys of the complete tracks |
| MixableGroups.CandidateMember | components/MixableGroups.tsx:52-57 | a candidate is exactly a track of the band whose key neighbours the root |
| MixableGroups.TempoExtremes | components/MixableGroups.tsx:65-66 | the least and greatest tempos are members' tempos and bound every member's tempo |
| MixableGroups.PresentKeysMember | components/MixableGroups.tsx:68 | the group's keys are the neighbours that occur in the collection |
| MixableGroups.MakeGroupIsGroup | components/MixableGroups.tsx:65-74 | a group built from two or more candidates is a group of the complete tracks |
| MixableGroups.RootStep | components/MixableGroups.tsx:56-74 | one root pushes its group unless it has fewer than two tracks or its track set was seen |
| MixableGroups.GroupBand | components/MixableGroups.tsx:55-75 | the inner loop tries every collection key as a root, in order |
| MixableGroups.GroupBands | components/MixableGroups.tsx:51-76 | the outer loop goes through the bands in order and pushes onto an empty result |
| MixableGroups.ComputeGroups | components/MixableGroups.tsx:35-79 | the grouping method computes the reference groups |
| MixableGroups.LabelHeadReadsBack | components/MixableGroups.tsx:70 | the key part of a group label holds no space, and for a non-empty key list it splits on '/' into the texts of the first three keys, or of all of them when there are at most three |
| MixableGroups.GroupLabelReadsBack | components/MixableGroups.tsx:70 | a group label splits on spaces into exactly three words: the slash-joined shown keys, "@", and the rounded tempo range |
| MixableGroups.GroupsAreGroups | components/MixableGroups.tsx:35-79 | every listed group has two or more tracks of one band around one root, with its keys and tempo range |
| MixableGroups.GroupsDistinct | components/MixableGroups.tsx:60-63 | no two listed groups hold the same tracks |
| MixableGroups.GroupsBySize | components/MixableGroups.tsx:78 | groups are listed largest first |
| MixableGroups.GroupsCoverBands | components/MixableGroups.tsx:51-76 | no group is missed: a band and collection key with two or more candidates give a listed group with exactly those tracks |
| BestMatches.Others | components/BestMatches.tsx:18 | the filter keeps exactly the complete tracks with another id |
| BestMatches.ScoreAll | components/BestMatches.tsx:19-24 | entry `k` is the score from the selected track to other track `k` |
| BestMatches.TopMatchesLength | components/BestMatches.tsx:26 | there are ten matches, or all of them when fewer tracks qualify |
| BestMatches.TopMatchesAreOthers | components/BestMatches.tsx:18-26 | each match is the score to another complete track |
| BestMatches.TopMatchesDescending | components/BestMatches.tsx:25 | the matches come best first |
| BestMatches.TopMatchesStable | components/BestMatches.tsx:25-26 | matches with equal totals keep the order of the track list |
| BestMatches.TopMatchesLeaveOutWorse | components/BestMatches.tsx:25-26 | the scores left out are the rest of the ranking, and none beats the last match |
| BestMatches.TopMatchesTrackLeftOut | components/BestMatches.tsx:18-26 | a complete track whose score is not listed scores no more than the last match |
| BestMatches.GetMatches | components/BestMatches.tsx:14-29 | a hit returns the stored list; a miss stores and returns the top matches; other entries are kept |
| BestMatches.RepeatCallReturnsFirst | components/BestMatches.tsx:15-16 | a second call for the same id and parameters returns the first list, whatever the track list |
| BestMatches.StaleMatchesAfterTracksChange | components/BestMatches.tsx:15-16 | after a change of track list the memo still returns the list of the old one |
| BestMatches.StaleMatchesExample | components/BestMatches.tsx:15-16 | a concrete stale answer: a listed track that is no longer in the list |
| BestMatches.GetListMatches | components/BestMatches.tsx:14-29 | with the track list in the key, a sound memo always answers with the current top matches |
| BestMatches.ListMatchesNeverStale | components/BestMatches.tsx:14-29 | with the track list in the key, a second call with a new list gets that list's matches |
| PlaylistSelector.CountIsKnownLeafIds | components/PlaylistSelector.tsx:12-17 | a node's count is the number of references in its leaves that the map knows |
| PlaylistSelector.SumFromIsKnownForestIds | components/PlaylistSelector.tsx:16 | the fold adds the known references of the whole forest to its start value |
| PlaylistSelector.CountAtMostReferences | components/PlaylistSelector.tsx:12-17 | the count never exceeds the references in the subtree |
| PlaylistSelector.CountedOccurrences | components/PlaylistSelector.tsx:14 | a known id is counted as often as it occurs; an unknown one not at all |
| PlaylistSelector.FolderCountIsSum | components/PlaylistSelector.tsx:16 | split the children anywhere and the two parts' sums add up to the folder's count |
| PlaylistSelector.LeafCountIsResolvedLength | components/PlaylistSelector.tsx:68-71 | a playlist's count is the length of the tracks a click resolves, all of them collection tracks |
| SetExport.DoubleQuotes | components/BestSetOrder.tsx:16-17 | doubling quotes adds no character other than '"' |
| SetExport.UndoubleDoubled | components/BestSetOrder.tsx:16-17 | undoubling gives back the text |
| SetExport.QuoteRoundTrip | components/BestSetOrder.tsx:16-17 | a quoted field unquotes to exactly the text |
| SetExport.QuoteKeepsNoSeparators | components/BestSetOrder.tsx:16-17 | quoting adds no comma or line feed |
| SetExport.CsvLinesShape | components/BestSetOrder.tsx:13-23 | the header row first, then one row per track in set order |
| SetExport.CsvRowReadsBack | components/BestSetOrder.tsx:15-23 | split on commas, a row gives five fields: title and artist unquote to the track's text, the rest are as stored |
| SetExport.CsvReadsBack | components/BestSetOrder.tsx:12-23 | split on line feeds, the document gives back the header row and the track rows |
| SetExport.M3uLinesShape | components/BestSetOrder.tsx:34-38 | '#EXTM3U' first, then each track's '#EXTINF' line and file line, in set order |
| SetExport.M3uReadsBack | components/BestSetOrder.tsx:33-39 | split on line feeds, the playlist gives back its lines |
| SetExport.DownloadNameShape | components/BestSetOrder.tsx:28 | no space is left in the name, it ends in the extension, and a name without '_' is recovered by the reverse swap |
| SetExport.TwoWordDownloadName | components/BestSetOrder.tsx:43 | a two-word label such as "Balanced Flow" becomes "Balanced_Flow" plus the extension |
| Page.HandleXml | app/page.tsx:26-48 | a failure changes nothing; a success stores the collection, empties the cache, and asks for a playlist exactly when there are playlists, else analyses the whole collection |
| Page.HandlePlaylistSelect | app/page.tsx:50-56 | the chosen tracks and label, the tracks tab, the analyse stage, an empty cache; collection and parameters kept |
| Page.HandleParamsChange | app/page.tsx:58-61 | the parameters are replaced whole and the cache emptied; nothing else changes |
| Page.HandleReset | app/page.tsx:63-69 | the upload stage, no collection, no tracks, an empty label and cache; parameters and tab kept |
| Page.HandleBackToPlaylists | app/page.tsx:71-77 | the playlist choice when the collection has playlists, everything else kept; otherwise exactly a reset |
| Page.InitialInv | app/page.tsx:18-24 | the first render is consistent and its cache fresh |
| Page.StepKeepsInv | app/page.tsx:26-77 | every event the page offers keeps the stage consistent and the cache fresh under the current parameters |
| Page.RunKeepsInv | app/page.tsx:26-77 | so does every run of offered events |
| Page.ReachableInv | app/page.tsx:18-77 | every state the page reaches is consistent with a fresh cache |
| Page.ParamsChangeNeedsClear | app/page.tsx:58-61 | keeping the cache on a change of parameters would leave a stale score; the handler leaves none |
| Page.PickPlaylistNeedsGuard | app/page.tsx:159-182 | the playlist picker is not offered at upload, and picking there would analyse without a collection |
| Page.ResetSettles | app/page.tsx:63-77 | a reset is idempotent, and going back after a reset is that reset again |
| Page.GenerateSet | components/BestSetOrder.tsx:62-69 | generating on the page's tracks and parameters gives the reference variants and keeps the cache fresh, nothing else changing |
| Page.Stats | app/page.tsx:79-84 | the total is the track count, and each other count is at most the total |
| Page.Filter | app/page.tsx:81-83 | `filter` keeps exactly the tracks that pass, each as often as it occurs in the list |
| Page.CountWhereIsFilterLength | app/page.tsx:81-83 | the count is the length of the filtered list |
| Page.StatsCounts | app/page.tsx:79-84 | the complete, missing-tempo and missing-key counts are the lengths of the three filters: complete tracks, tracks with no tempo, tracks with no Camelot key |
| Page.CompleteCountIsFilter | app/page.tsx:81 | the complete count is the length of the complete-track filter |
| Page.IncompleteCounted | app/page.tsx:79-84 | for built tracks, the incomplete ones are at most the missing tempos plus the missing keys |

## Left out

- XML parsing (`parseCollection`, `parsePlaylistNode`, the DOMParser fallback) uses foreign libraries over untyped values. The model starts from the attribute lists, playlist trees and `ParsedCollection` values they produce. A parse failure is `None` in `Page.HandleXml`.
- `parseFloat` is a function parameter of `Collection.BuildTrack`, with `None` standing for NaN.
- IEEE floating point is not modelled: tempos and scores are `real`, and NaN and rounding error do not occur. `toFixed(1)` and `Math.round` are written out on reals.
- The ASCII letters are the only characters upper-cased or lower-cased. The source's `toUpperCase` also maps non-ASCII letters.
- React rendering, `useState`/`useMemo`, `setTimeout`, `alert`, `isLoading`, file download (`Blob`, object URLs, clicks) and the expand/collapse state of the components are not modelled. The page's events are the handlers together with the render conditions that offer them.
- The badges and colours the components draw are not modelled. The group label is, but not its use as the React key and the expand key (components/MixableGroups.tsx:92-96).
- Ordering.ScoreWith: a track without a key scores a zero insight, where the source's `getCamelotNumber(null)` throws. Only complete tracks, which always have a key, are ever scored.
- Ordering.CachedScoreSound: requires that ids identify tracks among those scored (`IdsIdentify`). A `hashStr` collision between two different tracks would let them share cache entries, and that case is not modelled.
- Page.GenerateSet: requires the same `IdsIdentify` condition on the page's tracks, for the same reason.
- Page.IncompleteCounted: requires tracks as `buildTrack` makes them (`WellFormedTrack`). For arbitrary track values the bound does not hold.
- MixableGroups.Wrap: the `% 12` of the source is stated only for the arguments it is called with (a wheel number plus or minus at most 2).
- MixableGroups.ComputeGroups: a group's de-duplication key (sorted ids joined by ',') is the multiset of ids it encodes. Complete tracks without a key would make the source fail and are skipped.
- BestMatches.GetMatches: the memo key is the record of the id and the four parameters. The source uses the template string of them, which is equal exactly when they are, since ids contain no '|'.
- The CSV and M3U numbers are written by the model's `toFixed(1)` and `Math.round` on reals. The read-back lemmas are stated for titles and artists without commas or line feeds. With those characters the source's output does not read back, as the quoting is partial.
- `TrackTable`, `UploadPanel` and `ControlsPanel` only display or forward values, and are not modelled.

## Findings

| source | as written | input that shows it | evidently intended | confidence | as-written member | corrected member |
|---|---|---|---|---|---|---|
| components/BestMatches.tsx:12-16 | the module-level match memo is keyed by the selected track's id and the parameters only, and nothing clears it | select a track while a playlist holding another complete track is loaded, then switch to a playlist with no other tracks and select it again: the old match is still listed | matches are computed against the current track list, as the page does for the score cache by clearing it on every change of tracks | medium, not executed | BestMatches.StaleMatchesExample | BestMatches.GetListMatches |
