# Wallet tools: a verified model

This project models the hard logic of three browser wallet tools and proves properties of it in Dafny 4.11:

- the **PSBT inspector**: descriptor syntax, spending alternatives, the preset policy builder, ranged
  multisig wallets, Taproot trees, relative locks, Script emission and the BIP38 page;
- the **discovery scanner**: the address book, the gap-limit branch scan, the lookup estimate, the
  concurrency limiter, the worker pool and candidate-list import;
- the **activity viewer**: batch inputs, its worker pool and the accounting of a batch.

`dafny verify dfyconfig.toml` checks every file.

## How it is laid out

| File | What it holds |
|---|---|
| Text, KeyOrder, Tally | characters, numbers and lists of text; BIP67 order; counting numbered things |
| BalancedSyntax, DescriptorSyntax, DescriptorForms, FragmentScan, ConsensusLimits | delimiters, parser and printer, the forms the parser takes by name, the text scan for fragments and the multisig limits that use it |
| DescriptorPaths, DescriptorCompiler, TapscriptFragment | path enumeration and its meaning; the two writers of concrete fragments |
| RelativeLocks, PolicyRequest, PolicyTree, PolicyBuilder, PresetTexts, MultisigWallet | locks, requests, the trees of the presets, the builder, what each preset admits and emits, ranged wallets |
| TaprootTree, ScriptEmission | script trees and their root; tokens to bytes and back |
| AddressGap, Addresses, AddressAccounting, BranchScans, SectionFindings | the address book of a scan section, the branch loop and the findings |
| ScanEstimate, ScanSections, DashScans, CoinScans, EmptyWallets | the estimates shown before a scan, the scans of a seed phrase for Dash, Bitcoin and Ethereum with the calls they make, and the scans that fall short |
| ConcurrencyLimiter, WorkerPools | the semaphore and both worker pools, over every interleaving |
| Bip38, CandidateLists | ownership of secrets over asynchronous work |
| BatchInputs, BatchController | the inputs of a viewer batch and how each of them ends |

Code that computes is modelled by functions. Code that changes state is a class or a method with a
loop, tied by its `ensures` to a function of the old state; runs of events over those functions are
where the invariants are proved. An asynchronous operation is one step from one `await` to the next,
and events come in any order.

Hashes, key derivation, key decryption, the point decoder, age, the Miniscript library and the network
are function parameters. Where a law of theirs is needed it is a predicate in the statement: `Lawful`
for the tagged hashes (injective, leaf and branch hashes apart), `Agrees` for key materialization and
child derivation, `PathsDiffer` for derivation along different paths, `Answers`, `Respects` and
`Faithful` for a provider that reads one unchanging chain.

## Where the code does less than its own words, or has exceptions

- The text scan for fragments finds the outermost calls of a name, not every call, and reads them as
  written: it agrees with the tree exactly when the name does not stand inside itself and the parser
  dropped nothing from those calls (`ScanAgreesWithWalk`).
- The derivation suffix of a `musig()` key is read and dropped (`MusigSuffixIsLost`), and a call named
  `0` or `1` prints without its arguments (`ConstantArgumentsAreLost`); printing undoes parsing exactly
  when neither occurs (`PrintOfParse`).
- The lock operands `0` and `1` become constant nodes, so the tree's lock list loses them while the
  text's list keeps them (`LocksAgree`, `LockListReadsFromTwo`).
- A condition nothing satisfies can still be shown as having too many paths
  (`TooManyCanHideImpossible`); behind a `0` that happens exactly when the rest does not fit the bound
  (`ImpossibleBehind`).
- The lookups shown as the least a scan makes are not always reached. For Dash they are, on every chain,
  exactly when an empty wallet reaches them: each branch rounds up on its own, which the estimate does
  not count, and the identities stop after one empty gap, which it does not count either
  (`NumberShownIsReached`). The page starts by showing 104 where an empty wallet takes 24
  (`PageSettingsFallShort`, `EmptyDashScan`). For Ethereum they are exactly when the first batches hold
  more than one address, because two profiles share their first path; a scan of one address each makes
  two calls of the three shown (`EthereumEstimate`, `EmptyEthereumScan`). Both are about scans without
  custom paths, which can only add calls.
- An opening brace without its closing one is a leaf to the leaf reader and refused by the hasher
  (`UnclosedTreeIsListed`).
- Two spellings of one address in one request are both asked and both counted
  (`TwoSpellingsCountTwice`); totals are exact exactly when the missing texts have different keys
  (`LookUpIsExact`).

## Model

| member | source | states |
|---|---|---|
| BalancedSyntax.FindMatchingClose | apps/psbt-inspector/src/balanced-syntax.ts:6-23 | the scan returns the one position that balances the opening without any earlier close doing so or going below, and refuses exactly when there is none |
| BalancedSyntax.SplitTopLevelArguments | apps/psbt-inspector/src/balanced-syntax.ts:25-55 | the loop refuses exactly the texts with unbalanced delimiters; otherwise its parts are plain arguments that join to the text |
| BalancedSyntax.SplitOfJoin | apps/psbt-inspector/src/balanced-syntax.ts:25-55 | splitting undoes joining of plain arguments |
| BalancedSyntax.SplitExactly | apps/psbt-inspector/src/balanced-syntax.ts:25-55 | joining undoes splitting, and refusal means unbalanced |
| DescriptorForms.PairsAreArguments | apps/psbt-inspector/src/balanced-syntax.ts:31-44 | a balanced text between round, square or curly brackets is one argument, and between angle brackets when they count |
| DescriptorForms.OpenPairIsRefused | apps/psbt-inspector/src/balanced-syntax.ts:45-54 | a balanced text behind an opening bracket or before a closing one of any kind is refused |
| DescriptorSyntax.ReadOfPrintedCall | apps/psbt-inspector/src/descriptor-policy.ts:125-140 | a printed call is read as its name, its arguments and what follows its matching close |
| DescriptorSyntax.ParseOfPrint | apps/psbt-inspector/src/descriptor-policy.ts:113-151 | parsing the text of any well-formed tree gives the tree back |
| DescriptorSyntax.PrintOfParse | apps/psbt-inspector/src/descriptor-policy.ts:113-151 | printing a parsed text never lengthens it, and gives the text back exactly when no musig suffix and no call named 0 or 1 was dropped |
| DescriptorSyntax.ParsedIsWellFormed | apps/psbt-inspector/src/descriptor-policy.ts:141-150 | every tree the parser returns, without a call named 0 or 1, is one that parsing its own text returns |
| DescriptorSyntax.ReprintIsStable | apps/psbt-inspector/src/descriptor-policy.ts:154-156 | parsing a reprinted tree without a call named 0 or 1 changes nothing, whatever musig suffix the first text carried |
| DescriptorSyntax.MusigSuffixIsLost | apps/psbt-inspector/src/descriptor-policy.ts:133-140 | a musig() key with a derivation suffix parses to the same tree as without it |
| DescriptorSyntax.ConstantArgumentsAreLost | apps/psbt-inspector/src/descriptor-compiler.ts:80 | a call named 0 or 1 is accepted and printed without its arguments |
| DescriptorForms.StepsAreSuffix | apps/psbt-inspector/src/descriptor-policy.ts:133-140 | one or more steps, each an index, the wildcard or an angle-bracket tuple behind a slash, are a derivation suffix |
| DescriptorForms.SuffixIsSteps | apps/psbt-inspector/src/descriptor-policy.ts:133-140 | and nothing else is |
| DescriptorForms.TextBehindCall | apps/psbt-inspector/src/descriptor-policy.ts:133-140 | a call with text behind it is null, unless it is a musig() key with a derivation suffix |
| DescriptorForms.ThresholdStaysText | apps/psbt-inspector/src/descriptor-policy.ts:132-148 | the first argument of thresh, multi, sortedmulti, multi_a and sortedmulti_a stays text even when it looks like a fragment |
| DescriptorForms.FirstArgumentIsParsed | apps/psbt-inspector/src/descriptor-policy.ts:132-148 | the first argument of every other fragment is parsed when it parses |
| DescriptorForms.ParseOfTower | apps/psbt-inspector/src/descriptor-policy.ts:113-114 | n nested calls are read for every n up to depth 128, and refused as too deep for every n beyond |
| DescriptorCompiler.MaterializeIsPrint | apps/psbt-inspector/src/descriptor-compiler.ts:60-81 | with keys left alone and nothing to sort the materializer writes the printed text |
| DescriptorCompiler.MaterializeUndoesParsing | apps/psbt-inspector/src/descriptor-compiler.ts:60-81 | materializing a parsed text with unchanged keys gives the text exactly when the parser kept all of it |
| DescriptorCompiler.MaterializeByName | apps/psbt-inspector/src/descriptor-compiler.ts:60-81 | sortedmulti and sortedmulti_a become multi and multi_a with their keys in order, every other name and order stays, and the key map is applied to all but the first argument of a multisig and to the first of a key fragment, by name |
| TapscriptFragment.ExpandIsMaterialize | apps/psbt-inspector/src/musig-descriptor.ts:221-240 | the Taproot compiler's writer, which works on text, agrees with the tree materializer on every Tapscript tree, its keys, thresholds and key order |
| TapscriptFragment.ThresholdIsChecked | apps/psbt-inspector/src/musig-descriptor.ts:231-237 | a Tapscript multisig is written exactly for a decimal threshold from 1 to the number of its keys |
| TapscriptFragment.KeyArityIsChecked | apps/psbt-inspector/src/musig-descriptor.ts:228-230 | a key fragment is written for exactly one argument and refused for any other number |
| TapscriptFragment.TrailingTextIsRefused | apps/psbt-inspector/src/musig-descriptor.ts:225-226 | any text behind a call is refused |
| TapscriptFragment.PrefixIsKept | apps/psbt-inspector/src/musig-descriptor.ts:222-240 | letters with a colon before a call, or a colon alone, are kept in front of what the call is written as |
| FragmentScan.FragmentBodies | apps/psbt-inspector/src/balanced-syntax.ts:62-79 | the indexOf loop collects the bodies of the calls that are not the end of a longer name, as reading position by position does |
| FragmentScan.UnclosedCallIsRefused | apps/psbt-inspector/src/balanced-syntax.ts:67-75 | a first call that no parenthesis closes refuses the scan |
| FragmentScan.ScanFindsOutermost | apps/psbt-inspector/src/balanced-syntax.ts:62-79 | on a parsed text without parentheses in its leaves and dropped suffixes the scan gives, in order, the bodies as written of the outermost calls the parser makes nodes of |
| FragmentScan.WrittenIsPrinted | apps/psbt-inspector/src/descriptor-policy.ts:125-150 | those bodies are as many as the outermost nodes of the name, and are their argument texts exactly when the parser kept each body whole |
| FragmentScan.ScanAgreesWithWalk | apps/psbt-inspector/src/descriptor-policy.ts:513-515 | the scan gives the argument texts of all nodes of a name, in order, exactly when none stands inside another and the parser kept their bodies whole; it finds as many as there are exactly when none is nested |
| FragmentScan.LocksAgree | apps/psbt-inspector/src/descriptor-policy.ts:310-319 | the lock values read from the tree and from the text are the same list exactly when no operand is the constant 0 or 1 |
| ConsensusLimits.ValidateMultisigConsensusLimits | apps/psbt-inspector/src/consensus-limits.ts:99-130 | the check accepts exactly the texts in which every body of multi, sortedmulti, multi_a and sortedmulti_a keeps to threshold, context and key limits |
| ConsensusLimits.KeepsByContext | apps/psbt-inspector/src/consensus-limits.ts:104-129 | a body keeps to the limits exactly with a threshold from 1 to its number of keys, at most 20 keys outside Tapscript or 3 in a bare script, at most 999 inside it, and a name of its context |
| ConsensusLimits.TextCheckIsTreeCheck | apps/psbt-inspector/src/consensus-limits.ts:96-130 | for a parsed text the check on text accepts a name exactly when every tree node of that name keeps to the limits |
| DescriptorPaths.EnumerationMeaning | apps/psbt-inspector/src/descriptor-policy.ts:361-398 | when not limited, a condition holds under an assignment exactly when every leaf of some listed path does; the meaning goes by the names of BIP379: or_b, or_c, or_d and or_i are disjunctions, and_v, and_b and and_n conjunctions, andor the conditional, 0 and 1 the constants, sh and wsh their argument |
| DescriptorPaths.Alternatives | apps/psbt-inspector/src/descriptor-policy.ts:361-398 | never more than 64 paths, and none at all when limited |
| DescriptorPaths.LimitIsExact | apps/psbt-inspector/src/descriptor-policy.ts:345-398 | the walk gives up exactly when some list or prefix product it builds exceeds 64, and otherwise lists every alternative |
| DescriptorPaths.ImpossibleMeansUnsatisfiable | apps/psbt-inspector/src/descriptor-policy.ts:452-463 | the impossible card appears exactly for an unsatisfiable condition whose walk did not give up |
| DescriptorPaths.CardsMeanTheCondition | apps/psbt-inspector/src/descriptor-policy.ts:437-489 | a condition holds, by the same names, exactly when all leaves of some card's path do |
| DescriptorPaths.CardsOfPaths | apps/psbt-inspector/src/descriptor-policy.ts:428-489 | there is one card for each path, in order, and it is symbolic exactly when a leaf of the path mentions thresh, raw, addr, sp, combo or tr at any depth |
| DescriptorPaths.ChoiceCards | apps/psbt-inspector/src/descriptor-policy.ts:437-489 | a nest of or_i between keys shows one card for each key, in order, up to 64 keys, and the too-many card beyond |
| DescriptorPaths.ImpossibleBehind | apps/psbt-inspector/src/descriptor-policy.ts:439-463 | a condition that also needs `0` is unsatisfiable, and shows the impossible card exactly when the walk of the rest fits the bound |
| DescriptorPaths.TooManyCanHideImpossible | apps/psbt-inspector/src/descriptor-policy.ts:439-451 | the unsatisfiable `and_v(v:c,0)` shows the too-many card for every nest `c` of binary `or_i` between more than 64 `pk` keys, and the parser reads its text down to its depth limit |
| RelativeLocks.BitsOfSequence | apps/psbt-inspector/src/consensus-limits.ts:69-80 | units, type flag and disable flag are the stated bits of the value |
| RelativeLocks.SecondsRoundUpTightly | apps/psbt-inspector/src/consensus-limits.ts:56-85 | seconds encode to an active time lock of at least the request and less than 512 seconds more; refusal exactly above 65535 units or below zero |
| RelativeLocks.BlocksDecodeToThemselves | apps/psbt-inspector/src/policy-lock.ts:66-69 | an admitted block delay is active, not time based, and decodes to itself |
| RelativeLocks.LockAdmission | apps/psbt-inspector/src/policy-lock.ts:47-77 | which values each kind of lock admits, both ways |
| RelativeLocks.AfterOpens | apps/psbt-inspector/src/policy-lock.ts:54-65 | some transaction final for the next block reaches an absolute lock exactly when the tip has its height or the median time is past it |
| RelativeLocks.LockMeansTheWait | apps/psbt-inspector/src/policy-lock.ts:54-76 | some transaction that can be mined next meets an admitted lock exactly when the requested wait is over |
| RelativeLocks.TimeLockNeverOpensEarly | apps/psbt-inspector/src/policy-lock.ts:70-75 | a relative time lock never opens early and is open one unit later |
| KeyOrder.SortedIsUnique | apps/psbt-inspector/src/policy.ts:105-107 | two sorted lists of the same keys are the same list |
| KeyOrder.PrecedesByFirstDifference | apps/psbt-inspector/src/policy.ts:105-107 | of two keys the one with the smaller character at the first difference comes first, and a prefix before what it begins |
| KeyOrder.SortOfPermutation | apps/psbt-inspector/src/policy.ts:110-114 | sorting forgets the order keys came in |
| KeyOrder.SignersOfSort | apps/psbt-inspector/src/policy.ts:105-107 | key order does not change who can sign |
| PolicyRequest.ValidatePublicKeys | apps/psbt-inspector/src/policy.ts:68-94 | the loop accepts exactly 1 to 20 keys, each 02 or 03 with 64 hexadecimal digits once normalized and a point of the curve, no two the same, and returns them normalized, in order |
| PolicyRequest.NormalOfTyped | apps/psbt-inspector/src/policy.ts:73 | blanks, tabs and line ends around a key and capital digits in it do not matter |
| PolicyBuilder.OrderedPolicyKeys | apps/psbt-inspector/src/policy.ts:96-108 | with supplied order each key is the normalized input, or in Tapscript the 64 digits that follow its 02 or 03; with BIP67 the same keys in ascending order; refused exactly when a key is not admitted or, in Tapscript, two differ in nothing but their parity |
| PolicyTree.TreeIsWellFormed | apps/psbt-inspector/src/policy.ts:228-379 | every preset's tree is one the parser returns for its text |
| PolicyTree.ReaderListsTheAlternatives | apps/psbt-inspector/src/descriptor-policy.ts:361-398 | the enumeration of a preset's tree is its requested alternatives, in order and leaf by leaf |
| PolicyTree.TreeMeaning | apps/psbt-inspector/src/policy.ts:228-379 | a preset's tree holds in a world exactly when its signatures, locks and preimages do as its shape says |
| PolicyBuilder.ShapeMeansRequirement | apps/psbt-inspector/src/policy.ts:228-379 | key order, x-only keys and lock encoding drop out: the shape's condition is the request's own requirement, counted over the keys as they were entered |
| PolicyBuilder.BuilderAndReaderAgree | apps/psbt-inspector/src/policy.ts:228-379 | for every accepted preset the emitted text parses to its tree, the paths are the requested alternatives, and the spend condition is the requirement in every world |
| PolicyBuilder.LockListReadsFromTwo | apps/psbt-inspector/src/descriptor-policy.ts:310-319 | the lock list reads an emitted operand exactly when it is 2 or more |
| PolicyBuilder.BuildHashTimeLocked | apps/psbt-inspector/src/policy.ts:228-253 | accepts exactly the requests with a shape, and emits the text of its tree |
| PolicyBuilder.BuildRecovery | apps/psbt-inspector/src/policy.ts:254-306 | the five modes with one delayed branch accept exactly the requests with a shape and emit the text of its tree |
| PolicyBuilder.BuildStaged | apps/psbt-inspector/src/policy.ts:307-340 | staged recovery likewise |
| PolicyBuilder.BuildEscalating | apps/psbt-inspector/src/policy.ts:352-370 | escalating recovery likewise |
| PolicyBuilder.BuildPolicy | apps/psbt-inspector/src/policy.ts:171-397 | a preset is accepted exactly when its request has a shape and the compiled policy is sane, or within 520 bytes in P2SH, and the Miniscript is the text of its tree |
| PresetTexts.EmittedTextIsPreset | apps/psbt-inspector/src/policy.ts:118-379 | the Miniscript of every admitted preset, spelled out mode by mode: fragment names, multi_a or multi, pk or pkh, thresholds and their defaults, lock operands and digest |
| PresetTexts.AdmittedByMode | apps/psbt-inspector/src/policy.ts:171-370 | the builder's own checks admit exactly the requests whose wrapper, keys, thresholds, locks and digest meet what their mode asks |
| MultisigWallet.DeriveRow | apps/psbt-inspector/src/multisig-wallet.ts:352-386 | a row holds the derived keys in the chosen order and the built policy's Miniscript |
| MultisigWallet.BuildRangedWallet | apps/psbt-inspector/src/multisig-wallet.ts:412-427 | the nested loops give the rows of each branch in order, or a refusal exactly when the request or a row is refused |
| MultisigWallet.AdmittedWithinLimits | apps/psbt-inspector/src/multisig-wallet.ts:326-340 | a wallet of parsed accounts is admitted exactly with 1 to 15 keys in P2SH or 20 outside it, a threshold among them, branch 0 or 1 or both, and at most 200 indices below 2^31 |
| MultisigWallet.WalletHoldsRow | apps/psbt-inspector/src/multisig-wallet.ts:412-427 | an admitted wallet holds the row of every branch and index of the range, and no other |
| MultisigWallet.RowHoldsKeys | apps/psbt-inspector/src/multisig-wallet.ts:352-386 | a row lists the key of every account at its branch and index, as entered or in ascending order |
| MultisigWallet.DescriptorText | apps/psbt-inspector/src/multisig-wallet.ts:342-350 | the exported descriptor spelled out: wsh or sh, multi or sortedmulti, threshold, and each origin and key with its branch and wildcard |
| MultisigWallet.RowAtItsPlace | apps/psbt-inspector/src/multisig-wallet.ts:423-427 | the row at place b * count + i is that of branch b at start + i |
| MultisigWallet.DescriptorIsRead | apps/psbt-inspector/src/multisig-wallet.ts:342-350 | the exported descriptor is read as its wrapper around the branch's multisig tree |
| MultisigWallet.RowRefinesDescriptor | apps/psbt-inspector/src/multisig-wallet.ts:342-386 | materializing a branch descriptor at an index gives the directly built row's multisig expression with the same ordered keys |
| MultisigWallet.SortedRowsIgnoreCosignerOrder | apps/psbt-inspector/src/multisig-wallet.ts:378-381 | with BIP67 order a permuted request gives the very same row |
| TaprootTree.LeavesAreTips | apps/psbt-inspector/src/descriptor-policy.ts:497-510 | the leaf reader lists the tips of the tree from left to right, or refuses for the tree's own reason |
| TaprootTree.HashIsOfTheTree | apps/psbt-inspector/src/musig-descriptor.ts:246-259 | the hasher accepts exactly the texts the leaf reader accepts whose leaves compile and are not unclosed braces, and its hash is the root of the same tree |
| TaprootTree.LeavesAreShallow | apps/psbt-inspector/src/descriptor-policy.ts:498 | no accepted leaf stands deeper than 128 |
| TaprootTree.ReadOfWritten | apps/psbt-inspector/src/descriptor-policy.ts:497-505 | reading a written tree gives the tree back down to depth 128, and refuses a deeper one for its depth |
| TaprootTree.WrittenOfRead | apps/psbt-inspector/src/descriptor-policy.ts:497-505 | writing the tree that was read gives the text back |
| TaprootTree.BranchHashIsSymmetric | apps/psbt-inspector/src/musig-descriptor.ts:241-245 | swapping the children of a branch keeps its hash |
| TaprootTree.SmallerHashGoesFirst | apps/psbt-inspector/src/musig-descriptor.ts:241-245 | the child hash that is smaller at the first difference goes first |
| TaprootTree.RootCommits | apps/psbt-inspector/src/musig-descriptor.ts:241-259 | two roots are equal exactly when the trees are equal up to child swaps and compiled leaf scripts |
| TaprootTree.TextsCommit | apps/psbt-inspector/src/musig-descriptor.ts:246-259 | the same for two accepted tree texts |
| TaprootTree.UnclosedTreeIsListed | apps/psbt-inspector/src/descriptor-policy.ts:499-504 | an unclosed brace is a leaf to one reader and refused by the other |
| ScriptEmission.ScriptFromMiniscriptAsm | apps/psbt-inspector/src/miniscript-engine.ts:107-133 | the loop emits the bytes of every token in order, or refuses |
| ScriptEmission.TokensOfSpaced | apps/psbt-inspector/src/miniscript-engine.ts:109 | cutting a text at its white space gives back the tokens it was spaced from |
| ScriptEmission.MeaningOfName | apps/psbt-inspector/src/miniscript-engine.ts:53-87 | each opcode name asks for the opcode of that name, by a table of names read the other way round |
| ScriptEmission.MeaningOfNumber | apps/psbt-inspector/src/miniscript-engine.ts:115-118 | the decimals from 0 to 16 ask for the empty push and OP_1 to OP_16 |
| ScriptEmission.MeaningOfPush | apps/psbt-inspector/src/miniscript-engine.ts:119-123 | a text between angle brackets asks for a push of the bytes whose hexadecimal text it is |
| ScriptEmission.MeaningOfHashedKey | apps/psbt-inspector/src/miniscript-engine.ts:124-130 | a bracketed HASH160 of a key asks for a push of the hash of the key's bytes |
| ScriptEmission.SupportedForms | apps/psbt-inspector/src/miniscript-engine.ts:110-131 | no other token is supported |
| ScriptEmission.HexTextOfBytes | apps/psbt-inspector/src/miniscript-engine.ts:121 | writing the bytes of a hexadecimal text gives the text back in lower case |
| ScriptEmission.ScriptNeedsSupport | apps/psbt-inspector/src/miniscript-engine.ts:107-133 | emission succeeds exactly when every token is supported and no push is too large |
| ScriptEmission.EmissionIsDecoded | apps/psbt-inspector/src/miniscript-engine.ts:53-133 | a Script reader takes the emitted bytes apart into the operations and pushes the tokens asked for |
| ScriptEmission.SameBytesSameOperations | apps/psbt-inspector/src/miniscript-engine.ts:107-133 | two accepted token texts give the same bytes exactly when they ask for the same operations |
| ScriptEmission.ReadOfPush | apps/psbt-inspector/src/miniscript-engine.ts:89-94 | an emitted push reads back as its data |
| ScriptEmission.PushIsShortest | apps/psbt-inspector/src/miniscript-engine.ts:89-94 | no script that reads as one push of the data is shorter |
| AddressGap.ExtendAddressTarget | apps/discovery-scanner/src/address-gap.ts:6-16 | the target becomes the nearer of the maximum and 21 past the used index, or stays when it was further; a cut is reported exactly when the maximum is nearer |
| AddressGap.AddressGapTracker.Extend | apps/discovery-scanner/src/address-gap.ts:22-30 | returns the new target and remembers whether any gap was cut |
| Addresses.AddressBook.LookUp | apps/discovery-scanner/src/address-book.ts:130-145 | asks the missing texts once each and absorbs the replies; a failed request or a reply of the wrong length changes nothing |
| Addresses.LookUpHas | apps/discovery-scanner/src/address-book.ts:81-88 | after a lookup every requested address has a state, so the omission refusal is unreachable |
| Addresses.AddressBook.States | apps/discovery-scanner/src/address-book.ts:81-88 | the states come in the order of the request |
| Addresses.AddressBook.Batch | apps/discovery-scanner/src/address-book.ts:55-72 | the target is pushed past each used address; shown are, in order, exactly the states with a balance above 0 and, when asked for, the used ones without; a cut gap is remembered |
| AddressAccounting.LookUpIsExact | apps/discovery-scanner/src/address-book.ts:130-145 | a lookup keeps the totals exact exactly when the texts it asks have different keys |
| AddressAccounting.EveryRunIsExact | apps/discovery-scanner/src/address-book.ts:80-106 | over every run with one spelling per request each distinct key is asked once and balance, used and funded are the sums over the cached states |
| AddressAccounting.TwoSpellingsCountTwice | apps/discovery-scanner/src/address-book.ts:131-139 | two spellings of one key in one request double the balance |
| BranchScans.PushedIsNeeded | apps/discovery-scanner/src/address-gap.ts:6-16 | extending past used addresses one by one gives the closed form on the last used one |
| BranchScans.ScanEndIsLeast | apps/discovery-scanner/src/address-book.ts:209-226 | the end of a scan is the one least N with N = max(initial, min(maximum, last used index below N + 21)) |
| BranchScans.GapFollowsTheLastUsed | apps/discovery-scanner/src/address-gap.ts:18-34 | unless a gap was cut, 20 unused addresses follow the last used one |
| BranchScans.EndIsReached | apps/discovery-scanner/src/address-gap.ts:6-16 | a scan ends at its minimum count, or exactly 21 past a used address, or at the maximum when that is nearer |
| BranchScans.ShownBelowIsExact | apps/discovery-scanner/src/address-book.ts:60-71 | of the first n addresses those with a balance above 0 and, when asked for, the used ones without are shown, each once, in index order, with the chain's state, and no others |
| BranchScans.ScanBranch | apps/discovery-scanner/src/address-book.ts:209-226 | the loop ends, derives 0, 1, 2, ... once each, returns that N whatever the batch size, shows exactly the indices below the end whose address has a balance or is used and asked for, reports a cut exactly when a used index stands less than 21 before the maximum, keeps the book faithful and exact, and returns nothing exactly on an abort seen before a batch; when its own keys are new and differ every batch asks the provider, but for a first batch of one address that is held already |
| BranchScans.ScanBranches | apps/discovery-scanner/src/address-book.ts:232-239 | all branches check the sum of their ends; each takes at least its end divided by the batch size, rounded up, and the provider calls of each branch follow from the keys held before it; no batch is looked up once its branch is aborted |
| BranchScans.PassesAreBounded | apps/discovery-scanner/src/address-book.ts:209-226 | the batches of a scan are at least its end, and so its minimum count, divided by the batch size and rounded up, at most one for each address, and exactly those of its minimum count when nothing is used |
| ScanSections.ScanSection | apps/discovery-scanner/src/coins/dash/transparent-family-scanner.ts:45-101 | a section with a book of its own asks the provider for every batch of its standard branches when different paths give different keys, so at least as often as their minimum counts take, each rounded up, and exactly that often without custom paths; it gives nothing only when aborted |
| ScanSections.BranchShows | apps/discovery-scanner/src/coins/dash/transparent-family-scanner.ts:60-85 | a scanned branch of a wallet shows its funded addresses, and its used ones without a balance exactly when that is asked for |
| DashScans.ScanPlatformChain | apps/discovery-scanner/src/coins/dash/platform-scanner.ts:121-219 | the loop ends at the same least N as a branch scan, with a request for each of the same batches and none once it is aborted |
| DashScans.ScanIdentities | apps/discovery-scanner/src/coins/dash/identity-scanner.ts:232-332 | the batches of two make exactly one call for each index up to the limit of attempts or the first full empty gap, whichever comes first, and none once they are aborted |
| DashScans.SectionsCoverEstimate | apps/discovery-scanner/src/scan-estimate.ts:76-93 | the selected sections, each branch rounded up on its own, take at least the estimate's one rounding of their sum |
| DashScans.ScanDash | apps/discovery-scanner/src/coins/dash/seed.ts:217-240 | a Dash scan of the selected sections, both Platform chains and the identities makes at least the address lookups shown, whatever the chain and the custom paths, and without custom paths exactly those its chains decide; it gives nothing only for refused settings or an abort |
| DashScans.WhatDashAdmits | apps/discovery-scanner/src/coins/dash/seed.ts:43-120 | the counts, selected families and identity limits that are admitted, both ways |
| DashScans.BranchesOfDash | apps/discovery-scanner/src/coins/dash/transparent-family-scanner.ts:45-101 | which branches the Core-chain sections scan and from which minimum, both ways |
| DashScans.NumberShown | apps/discovery-scanner/src/scan-estimate.ts:72-97 | the number shown is all selected Core addresses rounded up together, both Platform chains and every identity attempt |
| DashScans.IdentityEstimate | apps/discovery-scanner/src/scan-estimate.ts:95-96 | the identity calls shown are reached on every chain exactly when the empty-gap limit is at least the limit of attempts |
| DashScans.LeastIsLeast | apps/discovery-scanner/src/scan-estimate.ts:72-97 | no chain makes a Dash scan take fewer lookups than an empty wallet, which takes each branch rounded up on its own and one empty gap of identities |
| DashScans.NumberShownIsReached | apps/discovery-scanner/src/scan-estimate.ts:144-167 | the whole number shown for Dash is reached on every chain exactly when an empty wallet reaches it |
| EmptyWallets.PageSettingsFallShort | apps/discovery-scanner/src/index.html:413-588 | with the settings the page starts with, 104 lookups are shown and an empty wallet takes 24 |
| EmptyWallets.EmptyDashScan | apps/discovery-scanner/src/coins/dash/seed.ts:217-240 | that scan, on a wallet whose paths differ: 4 address lookups and 20 identity calls |
| CoinScans.ScanBitcoin | apps/discovery-scanner/src/coins/bitcoin/seed.ts:181-184 | a Bitcoin scan makes at least the lookups shown, exactly as many for a wallet without a used address and custom paths, and gives nothing only for refused counts or an abort |
| CoinScans.ScanEthereum | apps/discovery-scanner/src/coins/ethereum/seed.ts:103-131 | an Ethereum scan makes the calls its chain decides, more only through custom paths, and never fewer than one less than shown |
| CoinScans.EthereumEnds | apps/discovery-scanner/src/coins/ethereum/seed.ts:42-64 | each Ethereum profile ends at the least fixed point for the count asked for and its own maximum, which leaves out the accounts before the chosen one for Ledger Live |
| CoinScans.EthereumEstimate | apps/discovery-scanner/src/coins/ethereum/seed.ts:187-189 | without custom paths the lookups shown are reached on every chain exactly when the first batches hold more than one address |
| EmptyWallets.EmptyEthereumScan | apps/discovery-scanner/src/coins/ethereum/seed.ts:37-63 | a scan of one address for each profile of an empty wallet makes two calls where three are shown |
| ScanEstimate.CountCandidateLines | apps/discovery-scanner/src/scan-estimate.ts:192-202 | the one-pass counter equals the number of lines that are not empty after trimming |
| ScanEstimate.EstimateRefuses | apps/discovery-scanner/src/scan-estimate.ts:16-20 | the estimate is refused exactly for a negative count of something selected, or an identity limit below 1 |
| SectionFindings.AddressFindings.Show | apps/discovery-scanner/src/address-book.ts:175-186 | a new address is listed and reported; a known one only gains a path it does not have |
| SectionFindings.OneFindingPerAddress | apps/discovery-scanner/src/address-book.ts:149-187 | after every run there is one finding per address, in the order of first sight |
| SectionFindings.LaterPathsAreKept | apps/discovery-scanner/src/address-book.ts:175-181 | every later path to an address is among its fields |
| SectionFindings.FieldsOfFinding | apps/discovery-scanner/src/address-book.ts:175-186 | the finding of an address has the fields of its first sighting and behind them only later paths to it, each once |
| ConcurrencyLimiter.RecoveryConcurrencyLimiter.Create | apps/discovery-scanner/src/concurrency.ts:29-31 | a limiter is made exactly for limits from 1 to 5 |
| ConcurrencyLimiter.RecoveryConcurrencyLimiter.TryAcquire | apps/discovery-scanner/src/concurrency.ts:51-69 | an aborted caller is refused, a free slot is taken, otherwise the caller queues at the end (`CallIsServed` says so over runs) |
| ConcurrencyLimiter.RecoveryConcurrencyLimiter.OnAbort | apps/discovery-scanner/src/concurrency.ts:60-64 | the abort listener takes its waiter out of the queue |
| ConcurrencyLimiter.RecoveryConcurrencyLimiter.GiveBack | apps/discovery-scanner/src/concurrency.ts:71-90 | a release rejects aborted waiters at the front and hands the slot on, or frees it |
| ConcurrencyLimiter.ReleaseTakesTheFront | apps/discovery-scanner/src/concurrency.ts:71-90 | exactly the aborted waiters before the first live one are rejected, and that one gets the slot |
| ConcurrencyLimiter.EveryRunIsGood | apps/discovery-scanner/src/concurrency.ts:41-90 | in every interleaving active is the slots held and at most the limit, waiters exist only at the limit, each caller is in one place and settles at most once, and slots go out in arrival order |
| ConcurrencyLimiter.CallIsServed | apps/discovery-scanner/src/concurrency.ts:51-69 | after every run a caller with a live signal gets a slot when fewer than the limit are held and stands last in the queue otherwise; with an aborted one it settles at once; nobody else moves |
| ConcurrencyLimiter.SettledHasRun | apps/discovery-scanner/src/concurrency.ts:41-90 | in every run a caller has settled only if its task ran or its own signal was aborted |
| ConcurrencyLimiter.WithoutAbortsAllRun | apps/discovery-scanner/src/concurrency.ts:41-90 | in every run without aborts every settled caller got a slot and ran |
| ConcurrencyLimiter.ResumedCallerRuns | apps/discovery-scanner/src/concurrency.ts:41-49 | a caller with a slot and a live signal runs once its wait ends |
| ConcurrencyLimiter.AbortedCallerNeverRuns | apps/discovery-scanner/src/concurrency.ts:41-49 | a caller that got a slot but was aborted in the meantime settles, gives the slot back and never runs |
| ConcurrencyLimiter.AbortedWaiterLeaves | apps/discovery-scanner/src/concurrency.ts:60-68 | an abort that reaches its waiter settles it without a slot, and everybody else keeps their place |
| ConcurrencyLimiter.SettledSlotIsServed | apps/discovery-scanner/src/concurrency.ts:71-90 | when a task settles its caller does, and the first waiter whose signal is live gets the slot |
| ConcurrencyLimiter.NoSlotIsLost | apps/discovery-scanner/src/concurrency.ts:41-90 | when all callers have settled active is 0 and nobody waits |
| ConcurrencyLimiter.SomeoneCanMove | apps/discovery-scanner/src/concurrency.ts:71-90 | while a caller has not settled, one that holds a slot can move on |
| WorkerPools.TaskPool.Next | apps/discovery-scanner/src/concurrency.ts:104-109 | a worker claims the next index, or ends |
| WorkerPools.TaskPool.Record | apps/discovery-scanner/src/concurrency.ts:110-121 | a task's outcome is kept at its index, and the first failure is kept |
| WorkerPools.EveryRunIsGood | apps/discovery-scanner/src/concurrency.ts:94-127 | in every interleaving each index is claimed at most once, at most `concurrency` tasks are in flight, and the kept failure is the first |
| WorkerPools.WorkerTakesNext | apps/discovery-scanner/src/concurrency.ts:104-112 | after every run a worker at the head of its loop takes the next index while there is one and no failure stops the pool |
| WorkerPools.WholePoolIsAnswered | apps/activity-viewer/src/batch.ts:43-79 | ended, the viewer's pool has at every index the outcome its task ended with, and the scanner's has every value at its index or throws the first failure |
| WorkerPools.EachTaskEndsOnce | apps/activity-viewer/src/batch.ts:51-78 | every task that ended did so once, with the outcome kept for its index |
| WorkerPools.NothingStartsAfterAFailure | apps/discovery-scanner/src/concurrency.ts:104-121 | in the scanner's pool no task starts once one has failed |
| Bip38.Bip38Feature.RetireAll | apps/psbt-inspector/src/bip38-feature.ts:84-95 | the queued and the current batch are wiped and the rows taken away |
| Bip38.Bip38Feature.IsCurrent | apps/psbt-inspector/src/bip38-feature.ts:150-163 | whether batch, revision and literal fields still match; changed fields retire the batch |
| Bip38.Bip38Feature.Start | apps/psbt-inspector/src/bip38-feature.ts:106-130 | a click retires what was there and starts a run, or queues one request behind the running one (`ClickDecrypts` says so over runs) |
| Bip38.Bip38Feature.OnKey | apps/psbt-inspector/src/bip38-feature.ts:165-187 | a finished key adds a row only while current, and the loop goes on or ends |
| Bip38.Bip38Feature.Finish | apps/psbt-inspector/src/bip38-feature.ts:188-199 | an ended run wipes its batch and lets the queued request start |
| Bip38.Bip38Feature.StartQueued | apps/psbt-inspector/src/bip38-feature.ts:203-218 | a queued request starts only if revision and fields still match, and is wiped otherwise |
| Bip38.Bip38Feature.Close | apps/psbt-inspector/src/bip38-feature.ts:229-241 | disposal clears once |
| Bip38.EverySequenceIsGood | apps/psbt-inspector/src/bip38-feature.ts:84-241 | over every sequence of events: at most one run and one queued request, every batch that is neither current nor queued wiped, rows only of one batch at the current revision in key order, nothing after disposal |
| Bip38.ClickDecrypts | apps/psbt-inspector/src/bip38-feature.ts:106-148 | after every sequence a click on admitted fields makes a fresh batch of them: current, with one run at its first key, when no run is alive, and queued otherwise |
| Bip38.RefusedClickRetires | apps/psbt-inspector/src/bip38-feature.ts:106-130 | a click on refused fields takes everything away and starts nothing |
| Bip38.RunShowsRows | apps/psbt-inspector/src/bip38-feature.ts:165-201 | while nothing else happens every completion shows its row with its outcome, in order; the last one wipes the batch, clears the password and leaves the rows |
| Bip38.QueuedRequestStarts | apps/psbt-inspector/src/bip38-feature.ts:188-218 | when the run before it ends a queued request becomes the current batch with a run at its first key if the fields still match, and is wiped otherwise |
| Bip38.EditTakesAway | apps/psbt-inspector/src/bip38-feature.ts:51-58 | a changed field wipes every batch made so far and takes the rows away |
| Bip38.WipeAndEndTakeAway | apps/psbt-inspector/src/bip38-feature.ts:97-104 | clearing and disposal wipe every batch, take the rows away and blank the key text and the password, and nothing else of the fields |
| Bip38.LateKeyTakesAway | apps/psbt-inspector/src/bip38-feature.ts:150-175 | a key that comes back to other fields than its batch was made from shows nothing, wipes every batch and ends the run |
| Bip38.RowsComeFromCurrentRuns | apps/psbt-inspector/src/bip38-feature.ts:173-182 | a row is added only by a key of the current batch and revision whose fields still match |
| Bip38.CurrentRunDecrypts | apps/psbt-inspector/src/bip38-batch.ts:49-57 | a current run only asks a live batch for a key in range |
| Bip38.NothingAfterDisposal | apps/psbt-inspector/src/bip38-feature.ts:228-241 | once disposed nothing is ever shown again |
| CandidateLists.CandidateListImport.RemoveList | apps/discovery-scanner/src/candidate-list-import.ts:155-159 | the generation moves on and a held list is freed |
| CandidateLists.CandidateListImport.EndPage | apps/discovery-scanner/src/candidate-list-import.ts:165-169 | the list and the page's key are freed |
| CandidateLists.CandidateListImport.StartOpen | apps/discovery-scanner/src/candidate-list-import.ts:99-114 | an open removes the list before it and remembers its generation |
| CandidateLists.CandidateListImport.OnHead | apps/discovery-scanner/src/candidate-list-import.ts:113-116 | after the head is read: a refusal, undefined when superseded, or the body's read |
| CandidateLists.CandidateListImport.OnBody | apps/discovery-scanner/src/candidate-list-import.ts:116-140 | after the body is read: undefined when superseded, a refusal, or the list kept |
| CandidateLists.EveryRunIsGood | apps/discovery-scanner/src/candidate-list-import.ts:99-169 | in every interleaving each list and page key is held or freed exactly once, every buffer is wiped in the step that makes it, every open answered once, at most one pending open is current, and while one is no list is held |
| CandidateLists.SupersededOpenKeepsNothing | apps/discovery-scanner/src/candidate-list-import.ts:106-130 | a superseded open keeps nothing and reports undefined |
| CandidateLists.OpenedListIsHeld | apps/discovery-scanner/src/candidate-list-import.ts:123-139 | an open that reports a list was current, found none held and holds that one |
| CandidateLists.HeadDecides | apps/discovery-scanner/src/candidate-list-import.ts:113-116 | the head of a file takes a current open on exactly when it is read and accepted, and ends every other one as refused or undefined |
| CandidateLists.BodyDecides | apps/discovery-scanner/src/candidate-list-import.ts:116-140 | a current open whose body holds candidates keeps that list, any other current one is refused, a superseded one is undefined |
| CandidateLists.UndisturbedOpen | apps/discovery-scanner/src/candidate-list-import.ts:99-139 | after every run an open that nothing disturbs frees the list before it and holds the list of a good file, or none |
| CandidateLists.ListIsFreed | apps/discovery-scanner/src/candidate-list-import.ts:155-169 | removing the list, leaving the page and opening another file free the held list and supersede every open under way; leaving the page frees its key |
| CandidateLists.PageKeyIsKept | apps/discovery-scanner/src/candidate-list-import.ts:65-73 | the page's key is made once and then kept |
| BatchInputs.ParseViewerBatchInputs | apps/activity-viewer/src/batch.ts:22-37 | the loop gives the distinct non-empty trimmed lines, or refuses when there is none |
| Text.LinesMakeText | packages/crypto-core/src/text-lines.ts:5-7 | no line holds a line end, and joined with line feeds the lines are the text without its carriage returns |
| Text.TrimOf | apps/activity-viewer/src/batch.ts:26 | trimming takes away exactly the white space around a text |
| BatchInputs.EveryLineIsAnInput | apps/activity-viewer/src/batch.ts:25-28 | every non-empty line's text is an input |
| BatchInputs.EveryInputIsALine | apps/activity-viewer/src/batch.ts:25-33 | every input is the first line of its text and carries its number |
| BatchInputs.ValuesDiffer | apps/activity-viewer/src/batch.ts:27 | no text is entered twice |
| BatchInputs.NumberOfIdOf | apps/activity-viewer/src/batch.ts:12-15 | reading the number of an id gives the number it was made from |
| BatchInputs.OrderIsEntryOrder | apps/activity-viewer/src/batch.ts:17-20 | rows sorted by number with the ids of chosen inputs stand in entry order, one each |
| BatchController.ScanOrchardTogether | apps/activity-viewer/src/batch-controller.ts:145-205 | every key that fails a page is refused once and dropped; the scan throws exactly when it does not connect, does not end or all keys failed |
| BatchController.DetectAll | apps/activity-viewer/src/batch-controller.ts:301-328 | unusable inputs become refusals, private material stops the batch, the others are kept by kind in order |
| BatchController.AddSettled | apps/activity-viewer/src/batch-controller.ts:380-387 | each settled query becomes its input's one result or refusal |
| BatchController.AddRest | apps/activity-viewer/src/batch-controller.ts:398-414 | keys that scanned through become results; when the scan fails the keys not yet refused become refusals |
| BatchController.PublishBatch | apps/activity-viewer/src/batch-controller.ts:220-233 | rows are published in entry order, one for each input, or nothing when none succeeded |
| BatchController.RunAutoBatch | apps/activity-viewer/src/batch-controller.ts:260-419 | a published batch shows exactly the inputs that succeed as results and exactly the others as refusals, in entry order with the right contents; it stays unpublished only without inputs, on private material, when cancelled or without a result |
| BatchController.CompleteForInput | apps/activity-viewer/src/batch-controller.ts:301-419 | every input of a published batch has exactly one row: its query's answer or a query refusal, its snapshot when its key fails on no page of a scan that ends, a refusal that says whether the key or the scan failed otherwise, and a local refusal when it was unusable |
| BatchController.WhoSucceeds | apps/activity-viewer/src/batch-controller.ts:380-414 | an input succeeds exactly when it is public and answered, or a viewing key that fails on no page of a scan that connects and ends |
| BatchController.RunBatch | apps/activity-viewer/src/batch-controller.ts:472-633 | the same for a batch of one mode, which its source or a failed Orchard scan can stop |

## Left out

- The custom Miniscript mode and the MuSig2 wrapper of the policy builder, addresses and scriptPubKeys: they end in library calls.
- The portable descriptor of staged recovery and the concrete single-address wallet: the same texts with other keys.
- The MuSig2 key expression parser, its key search and key aggregation: the hard part is the aggregation, which is cryptography.
- History enrichment and the candidate scan of the discovery scanner: one loop each over inputs, with only easy invariants.
- Miniscript typing, key derivation, hashes, KDFs, Base58, age and the network: parameters, with the laws named above.
- DOM, rendering, wording of messages, timing and progress: none of it is modelled.
- Descriptor checksums: the descriptors here are the text before `#`.
- Materialize: a key that cannot be derived makes the materializer throw; here the key map is total.
- Number: reads plain decimals; JavaScript's other spellings of numbers (hexadecimal, exponents, blanks) are outside it, and so are thresholds and counts that are not whole numbers.
- Precedes: `localeCompare` on lower-case hexadecimal is taken as order by character code.
- Lawful: the tagged hashes are taken as injective, which no finite hash is; the statements are about trees without collisions.
- ScanAgreesWithWalk: covers texts whose leaves and dropped musig suffixes hold no parenthesis; with one there, the scan finds calls the tree has no node for.
- LocksAgree: covers texts on which scan and walk agree (`ScanAgreesWithWalk`) and locks with one argument; with more, the tree reads the first and the text all of them.
- TextCheckIsTreeCheck: covers texts on which scan and walk agree, without calls named 0 or 1, and leaves without angle brackets, because the check splits bodies without looking at them; one name at a time.
- ExpandIsMaterialize: covers trees of Tapscript fragments with text keys; a nested `musig()` key is parsed by code that is not part of this model.
- Opcode: a token that is the name of a property every JavaScript object inherits, such as `constructor`, is not modelled; the compiler emits none.
- ScanBranch: the provider answers from one unchanging chain while a branch is scanned, and one call is made at a time; what a failed request does to the book is in `AddressBook.LookUp`.
- ScanDash: the sections run one after the other here and side by side in the scanner, with books and counts of their own; a section whose provider fails is shown as failed and makes fewer calls. History and height requests are not counted, and the refusal of an identity range past the index space is left out.
- PathsDiffer: derivation along different paths is taken as free of collisions; custom paths are not, they may repeat any address.
- BuildPolicy: a staged request whose portable descriptor keys do not materialize is refused by the code; those keys are not part of the request here.
- Bip38Feature: batches are numbered values and a set of wiped numbers, not objects; exceptions thrown by the page's own elements are left out, and the order of the cleanup steps around them with them.
- CandidateListImport: lists, keys and buffers are numbered values; what the list holds is left out.
- RunAutoBatch: ledger snapshots and row labels are taken as total; `cancelled` is whether cancellation was requested by the end of the batch.
- RunBatch: the settled queries of a mode are a function of the input; that each ends at its own index is proved for the pool in WorkerPools.
