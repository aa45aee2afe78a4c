# A verified model of an OpenID Provider's construction and login logic

This project models, in Dafny, the parts of a Go OpenID Connect provider library that decide
things before and around a login, and proves what they promise for every input and every run:

- **Options** (`Options.dfy`, `OptionPaths.dfy`): the two-phase option engine, explicit options
  over wrapped defaults at any depth, with one claim per setting.
- **Boot** (`Boot.dfy`): `New` as fallible stages over persistent stores, with the gate that
  pins the subject mode, its two-marker commit, deferred clean-up, and retries.
- **Login flows** (`LoginFlow.dfy`, `LoginCompile.dfy`, `LoginLookup.dfy`, `LoginMeaning.dfy`,
  `LoginAcceptance.dfy`, `LoginChoice.dfy`, `LoginOffer.dfy`): the checks made of a public
  flow, its projection, the compiler that indexes it, exactly which flows are accepted, and the
  proof that the compiled flow chooses and begins its steps as the public one reads.
- **Logins** (`LoginRun.dfy`, `LoginSafety.dfy`, `LoginHistory.dfy`, `LoginCauses.dfy`,
  `LoginContext.dfy`, `LoginProgress.dfy`, `LoginGrant.dfy`, `LoginReuse.dfy`): the
  orchestrator's pass loop over a compiled flow, for every embedder answer and every sequence of
  ticks and submissions, where its records come from, what predicates are shown, that a user who
  answers gets in, and what a grant means for the public flow.
- **Keys** (`Base64.dfy`, `KeyFile.dfy`, `Thumbprint.dfy`): key-file decoding, RFC 7638
  thumbprints, loading a keyset.
- **Locales, nonces, scopes** (`LocaleBundles.dfy`, `NonceRing.dfy`, `ScopeSet.dfy`).
- **Derived policy** (`Policy.dfy`, `Features.dfy`, `Acr.dfy`, `Endpoints.dfy`): profile
  intersections, features and grants, authentication levels, and the three computations of
  endpoint URLs.

`Maybes.dfy`, `Sequences.dfy` and `Text.dfy` hold what several modules share.

Each component is written three times over: as the loops, classes or case analysis the code
has; as a fold or function those are proved equal to; and as a declarative statement, over
multisets, quantifiers or whole runs, that the fold is proved to meet. Embedder code, stores,
entropy and clocks are parameters that may answer anything, including failing.

## Where the code differs from what it says

The model follows the code. Each of these is proved, with the exact condition where there is
one and a lemma at an input that fails.

- `op/options_subject.go:59-62` says the salt is pinned by the mode gate; the gate records the
  mode only (`Boot.SaltIsNotPinned`).
- `op/store/metadata.go:81-86` says a foreign sentinel value is refused; it is read as no
  sentinel (`Boot.ForeignSentinelIsIgnored`).
- Plaintext client secrets are cleared on failure only once all options have been applied; one
  taken in before a refused option is left (`Boot.SecretsOutliveARefusal`,
  `Boot.RefusedSettingKeepsSecret`).
- A commit that fails after its mode write pins a mode no provider ever served
  (`Boot.CorrectedRetry`, `Boot.PartialCommitPins`).
- Wiping the mode row lets a public boot through, so a pairwise or custom deployment is re-keyed
  (`Boot.WipeKeepsOnlyPublic`).
- `op/loginflow.go:51-55` says rules fire in declaration order; a due captcha rule goes first
  (`LoginChoice.DeclarationOrder`, `LoginChoice.CaptchaJumpsTheQueue`).
- A completed kind stays completed, but a solved captcha is asked for again after a credential
  failure (`LoginHistory.CaptchaRearms`, `LoginHistory.SolvedCaptchaIsAskedAgain`).
- A locale tag may hold a blank, so two different keys can make one claim; the promise per key
  holds exactly where no two supplied keys do (`LocaleBundles.PromisePerKey`,
  `LocaleBundles.BlankTagsRefuseDifferentKeys`, `LocaleBundles.BlankTagsDropADefault`).
- An issuer with percent-encoding is advertised in a spelling other than the mounted one
  (`Endpoints.AdvertisedIsMounted`, `Endpoints.EscapedIssuerDiffers`).
- An explicit zero value displaces a default and then yields to the library's value
  (`Options.ResolutionOrder`, `Options.ZeroLosesTheDefault`); two defaults on one slot are accepted when an explicit option
  covers it (`Options.RepeatedDefaultsNeedAnExplicitOne`).

## Model

| member | source | states |
|---|---|---|
| Options.Config.ClaimSlot | op/options.go:862-878 | a slot is claimed once; a default gives way to an explicit claim, and two claims of one phase are refused |
| Options.FlattenDefaults | op/options.go:827-839 | the loop and its recursion list the leaves of any nesting; OptionPaths.SplitByPath says which, how often and in what order |
| Options.SplitDefaults | op/options.go:813-824 | explicit options and wrapped ones are separated without loss, in order |
| OptionPaths.SplitByPath | op/options.go:813-839 | for every option list the explicit options are the leaves at the top level and the wrapped ones the leaves inside a WithDefaults at any depth, each once for every path of indices that leads to it, in the order of the paths |
| OptionPaths.NestingIsTransparent | op/options.go:827-839 | wrapping a WithDefaults once more, anywhere in the list, changes neither verdict nor configuration |
| Options.NewConfig | op/options.go:792-809 | the two loops accept exactly the admissible option lists, end in the specified configuration, and never let the shadow signal out |
| Options.OutcomeMeets | op/options.go:792-878 | for every option list: accepted iff no two explicit options claim a slot, no two unshadowed defaults do, every unshadowed option is valid and no entry is registered twice; then each setting is the explicit one, else the default |
| Options.OrderAndNestingDoNotMatter | op/options.go:813-839 | same explicit and same wrapped options in any order, position and nesting: same verdict and configuration |
| Options.PermutationsAgree | op/options.go:792-809 | any permutation of the options gives the same verdict and configuration |
| Options.DisplacedDefaultIsInert | op/options.go:1269-1287 | a wrapped multi-setting option that is covered explicitly changes nothing and is never validated, even if its values are invalid |
| Options.TakenIn | op/options.go:792-809 | an addition was taken in by newConfig, accepted or refused, iff an option makes it and none of those applied before is refused |
| Options.RepeatedDefaultsNeedAnExplicitOne | op/options.go:862-878 | two defaults on one slot are refused alone and accepted beside an explicit option |
| Options.ResolutionOrder | op/options_defaults.go:60-92 | explicit, else default, else library; an explicit zero value yields to the library |
| Options.ZeroLosesTheDefault | op/options_defaults.go:60-92 | an explicit zero beside any default leaves the library's value |
| Boot.Deployment.CheckSubjectModeGate | op/options_subject_immutability.go:66-128 | the reads, each of which may fail, reach the verdict of the decision table, which Boot.GatePassesIffOpen describes in both directions |
| Boot.GatePassesIffOpen | op/options_subject_immutability.go:66-128 | the gate passes iff there is no metadata store, or the row reads as this mode, whatever sentinel and grants are, or there is no row, all reads succeed, and the mode is public or nothing shows use |
| Boot.Deployment.CommitSubjectMode | op/options_subject_immutability.go:99-105 | the two marker writes, each of which may be lost or torn, leave the specified rows |
| Boot.Deployment.New | op/op.go:162-254 | every stage, then the deferred calls: a failure leaves the registry and audit stream as found, and before the commit the whole world |
| Boot.FailureLeavesNoTrace | op/op.go:162-254 | for every failing stage: unchanged world unless it is the commit, whose only traces are the markers and the seeded clients; secrets survive only an options failure that had taken one in |
| Boot.SecretsOutliveARefusal | op/op.go:162-171 | in every world and under all faults secrets stay uncleared iff the options are refused and one that hands over a secret is applied before the refused one |
| Boot.RefusedSettingKeepsSecret | op/options_clients.go:33-50 | a confidential client followed by a refused setting leaves its secret |
| Boot.SuccessPinsTheMode | op/op.go:162-254 | success sets both markers to this mode, seeds, registers and announces exactly once |
| Boot.BootsIffClears | op/op.go:162-254 | construction succeeds iff the listed conditions hold, stage order aside |
| Boot.BootsIffInOrder | op/op.go:162-254 | written out without the gate: construction succeeds iff options, stages, registry and seeds are in order, the gate is open and the marker writes that are due arrive |
| Boot.RecordedModeBoots | op/options_subject_immutability.go:66-105 | the recorded mode boots iff it is prepared, the row can be read and the sentinel written; grants play no part |
| Boot.RetryIsNotRefused | op/op.go:162-254 | a configuration that would boot still boots after any failure of its own |
| Boot.MarkersAfterFailedCommit | op/options_subject_immutability.go:99-105 | a failed commit wrote nothing, or its own mode, and the sentinel only beside it |
| Boot.CorrectedRetry | op/options_subject_immutability.go:66-105 | a retry in another mode is refused iff the failed commit's mode write reached the row |
| Boot.PartialCommitPins | op/options_subject_immutability.go:99-105 | a pairwise boot that loses its second write blocks a public boot that would have succeeded |
| Boot.RowAdmitsOnlyItsMode | op/options_subject_immutability.go:66-105 | a set mode row admits only its mode and no construction rewrites it |
| Boot.CommittedModeIsFinal | op/options_subject_immutability.go:66-184 | over every run without a wipe: after a boot committed a mode, even partly, every later successful boot uses it |
| Boot.SuccessfulBootsAgree | op/options_subject_immutability.go:66-184 | any two successful boots with no wipe between them use one mode |
| Boot.SameModeRestarts | op/options_subject_immutability.go:66-184 | over every run: after a successful boot with no wipe since, a later start in the same mode succeeds iff it is prepared and its read and write succeed, through any grants, faults and failed starts between |
| Boot.RowNamesTheOption | op/options_subject_immutability.go:25-34 | a boot leaves the row that the subject option used stands for |
| Boot.NoSwitchAfterWipe | op/options_subject_immutability.go:112-128 | after the row is wiped, while the sentinel or a grant survives, no pairwise or custom boot ever succeeds |
| Boot.NoOtherSubjectAfterWipe | op/options_subject_immutability.go:112-128 | so no boot with a pairwise subject or a subject generator succeeds then |
| Boot.EvidencePersists | op/options_subject_immutability.go:139-173 | only wiping the sentinel or dropping grants removes the evidence of use |
| Boot.WipeKeepsOnlyPublic | op/options_subject_immutability.go:112-128 | whatever the faults, a deployment wiped of its row boots only as public, so it keeps the mode it served iff that was public |
| Boot.SaltIsNotPinned | op/options_subject_immutability.go:25-34 | in every world and under all faults a boot with another salt is the same boot |
| Boot.ForeignSentinelIsIgnored | op/options_subject_immutability.go:164-173 | in every world and under all faults a foreign sentinel value gives the result of none; without a mode row the library's own value lets through exactly the public boots |
| Boot.OverlapNeedsAnUnusedStore | op/options_subject_immutability.go:66-105 | two overlapping boots of different modes can both pass the gate iff the store shows no use |
| Boot.NoMetadataNoGate | op/options_subject_immutability.go:66-80 | without a metadata store nothing is gated or written |
| LoginFlow.LoginFlowSteps | op/options_userstore.go:119-138 | the enumeration is every present step followed by its members, in order |
| LoginFlow.CheckRuleKinds | op/options_authn.go:270-290 | accepted iff no rule is missing, names the registration kind, or repeats a kind |
| LoginFlow.RegistrationKindUnique | op/options_validate.go:363-395 | accepted iff no step or one-of member bears the kind |
| LoginFlow.CheckLockoutStore | op/loginflow_compile.go:567-577 | refused iff no store resolves and some enumerated step counts failures |
| LoginFlow.ProjectStepAt | op/loginflow_projection.go:109-231 | each step becomes its specified projection, which LoginMeaning.StepSame relates to the step, or is refused |
| LoginFlow.ProjectOneOf | op/loginflow_projection.go:129-143 | members are projected in order at the same position with the policy for unenrolled users; one failure refuses the step |
| LoginFlow.CompileFlow | op/loginflow_projection.go:28-79 | compiles iff every step projects, the lockout store suffices and the compiler accepts, and returns that compiled flow, which LoginChoice.PositionsAreKept relates to the public one |
| LoginCompile.Compiler.Register | internal/authn/loginflow.go:466-472 | a kind is indexed once; a repeat changes nothing and is refused |
| LoginCompile.Compiler.CompileStep | internal/authn/loginflow.go:406-447 | a step and its members are indexed iff well shaped and their kinds are new |
| LoginCompile.Compiler.CompileRegistration | internal/authn/loginflow.go:371-395 | Registration is indexed by kind, never by factor; a one-of, captcha or unnamed one is refused |
| LoginCompile.Compiler.CompileRules | internal/authn/loginflow.go:332-352 | the rules are compiled in order iff all are well shaped with new kinds |
| LoginCompile.CompileLoginFlow | internal/authn/loginflow.go:290-329 | accepted iff every step is well shaped and all declared kinds are distinct; the indexes are those of the declarations |
| LoginLookup.ByKindIsScan | internal/authn/loginflow.go:466-472 | looking a kind up is scanning the declared steps for it |
| LoginLookup.ByFactorIsScan | internal/authn/loginflow.go:478-486 | looking a factor up finds the first declared non-captcha step that offers it |
| LoginLookup.CompiledIsCoherent | internal/authn/loginflow.go:290-365 | in every accepted flow members point to their one-of step and back, factor lookups never reach Registration, and the binders are Primary, its members and Registration |
| LoginMeaning.StepSame | op/loginflow_projection.go:109-231 | a step and its members compile one by one with their kind, nature, factor, AAL3 mark, counter, ceremony and answer where nobody is enrolled |
| LoginChoice.PositionsAreKept | op/loginflow_projection.go:28-124 | in every accepted flow Primary and Registration, members included, are compiled for the position without a subject, the rules for the one with |
| LoginMeaning.KindsAreDistinct | op/options_validate.go:336-415 | in every accepted flow all kinds differ, Registration and members included, and external steps bear dotted kinds, never a built-in one |
| LoginAcceptance.AcceptedIffFits | op/loginflow_compile.go:65-230 | read off the flow alone, both ways: accepted iff Primary names the user, every rule is a usable step or a non-empty choice among usable steps that are neither captchas nor choices, Registration is an external step without a counter, all kinds differ, members included, and steps that count failures have a store |
| LoginMeaning.PrimaryNamesTheUser | op/loginflow_compile.go:98-147 | in every accepted flow Primary, or each member of a choice there, is a password, a passkey that verifies the user, or an external step without a counter |
| LoginMeaning.RegistrationIsExternal | op/loginflow_compile.go:149-165 | Registration is an external step without a counter |
| LoginMeaning.OneOfKindIgnoresOrder | op/step.go:664-678 | the kind of a one-of step lists its members' kinds in sorted order, whatever order they are written in |
| LoginMeaning.CounterFollowsTheStep | op/loginflow_compile.go:506-591 | the lockout counter is attached to exactly the steps that count failures, at every position, and never to Registration |
| LoginMeaning.EnumerationCovers | op/options_userstore.go:119-138 | the enumeration behind the lockout check misses no step but Registration, which never counts |
| LoginChoice.ProjectionPreservesMeaning | op/loginflow_projection.go:28-79 | for every accepted flow, policy and state the compiled flow takes the action the public flow describes for the context shown, which LoginContext.ContextIsWhatHappened pins: nil predicate always, pointer as value, empty Require as Pass, no verdict as Deny |
| LoginOffer.PassPreservesMeaning | internal/authn/loginflow.go:1072-1120 | for every accepted flow, policy, assessor, probe and state one pass notes what the assessor demands or ends with its refusal, and then grants, refuses, or begins the described step as written: asks for it or its one candidate, offers its enrolled members in order, passes over or refuses where nobody is enrolled |
| LoginOffer.SubmissionPreservesMeaning | internal/authn/loginflow.go:1127-1312 | for every accepted flow, policy and state a submission to the active step does what the public step of that kind says: a choice among the offered members, a counted rejection, a completion; any other is refused |
| LoginChoice.FactorAlike | internal/authn/loginflow.go:942-963 | a risk step-up reaches the first public step that offers the factor, never Registration |
| LoginChoice.KindAlike | internal/authn/loginflow.go:700-738 | a Require resolves exactly the kinds the public flow declares |
| LoginChoice.DeclarationOrder | internal/authn/loginflow.go:880-905 | the first due rule in declaration order runs iff it is a captcha or no other captcha is due |
| LoginChoice.CaptchaJumpsTheQueue | internal/authn/loginflow.go:880-905 | in an accepted flow with a totp rule before a captcha rule, both due, the captcha runs |
| LoginSafety.RecordHolds | internal/authn/loginflow.go:1179-1202 | recording a runnable step keeps the invariant, brings the chain closer to its end, and counts one step |
| LoginSafety.ChosenIsStartable | internal/authn/loginflow.go:615-738 | whatever the embedder answers, the chosen step is declared, not done, allowed in this chain, and runs with a subject unless it binds one |
| LoginSafety.HandedSubject | internal/authn/loginflow.go:1032-1044 | a step that binds no subject is always handed the bound one; a binding one gets the subject iff the chain bound it by a factor or the chooser, Registration never any |
| LoginSafety.BeginStepOk | internal/authn/loginflow.go:985-1120 | beginning any step, one-of included, keeps the invariant and either stops or makes progress |
| LoginSafety.PassOk | internal/authn/loginflow.go:615-675 | one pass keeps the invariant; a pass that goes on is strictly closer to the end |
| LoginCauses.PassBy | internal/authn/loginflow.go:615-675 | a pass changes the records by nothing, by one step whose beginning returned a result that passed the checks, or by passing over one step nobody is enrolled in |
| LoginSafety.Advance | internal/authn/loginflow.go:615-675 | the pass loop terminates even if each pass is answered differently, and keeps the invariant, the bound subject and the fixed risk demand |
| LoginSafety.LastPassStops | internal/authn/loginflow.go:615-675 | the last pass is one the loop runs, and its turn is what the loop ends with |
| LoginHistory.SubmitKeeps | internal/authn/loginflow.go:1212-1312 | every submission, in any state, keeps the invariant; only a rejected one adds work, only a result completes a step, and none passes a step over |
| LoginCauses.SubmitBy | internal/authn/loginflow.go:1127-1312 | a submission changes the records by nothing or by the active step completed with the submitted result, or by the offered member chosen when it completes at once |
| LoginHistory.EachKindCompletesOnce | internal/authn/loginflow.go:1179-1202 | in every login completed kinds are declared, distinct and never undone, a member brings its one-of step, and each factor is that of one completed step |
| LoginCauses.EveryRecordHasItsCause | internal/authn/loginflow.go:1072-1312 | in every login each completed kind was answered with a result by an event of that login, each factor and its mark are those of such a result, the subject is the starting one or one a result named, and each kind passed over is a one-of step written with Skip in which the probes of that pass found nobody enrolled |
| LoginCauses.StrongFactorsAreVerified | internal/authn/orchestrator.go:375-408 | in every login each factor of a step that claims AAL3 came from a result that verified the user, and every mark is that of a result an event of the login gave |
| LoginContext.FailuresAreCounted | internal/authn/loginflow.go:1212-1280 | after every login the failure count is the credentials turned down since a captcha was last solved |
| LoginContext.ContextIsWhatHappened | internal/authn/loginflow.go:536-563 | in every pass of every login the context shown has as failures the credentials turned down since the last solved captcha, as factors and subject those of the results given, and as kinds those answered or stood in for by the session |
| LoginContext.CaptchaAfterFailures | op/rule.go:46-57 | with one captcha rule at a threshold, no decider and no assessor, a pass of any login runs the captcha iff at least that many credentials were turned down since it was last solved |
| LoginProgress.AnswerHelps | internal/authn/loginflow.go:1127-1312 | where every step asks and nobody objects, each correct answer or choice grants, or leaves the chain asking and strictly closer to its end |
| LoginProgress.UserGetsIn | internal/authn/loginflow.go:615-738 | for every accepted flow: a user who answers each prompt correctly, where every step asks and neither decider nor assessor takes part, is granted the login within four events per declared kind and three more |
| LoginHistory.RecordedStepsAreBounded | internal/authn/loginflow.go:568-573 | steps recorded, captchas included, number at most the declared kinds plus the rejected submissions |
| LoginHistory.SubjectIsFixed | internal/authn/orchestrator.go:391-408 | once a factor, the chooser or the session bound the subject, no later event changes it |
| LoginHistory.RegistrationStaysOut | internal/authn/loginflow.go:684-693 | Registration is never completed nor prompted for outside a registration chain |
| LoginHistory.CaptchaRearms | internal/authn/loginflow.go:568-573 | where all applicable captchas were solved, one runs again iff a credential failed since |
| LoginHistory.SolvedCaptchaIsAskedAgain | internal/authn/loginflow.go:568-573 | a solved captcha rule runs again after a failed credential and not without one |
| LoginHistory.EveryGrantIsEarned | internal/authn/loginflow.go:916-963 | every grant in every login is made by the last pass the event runs, with a bound subject, the demanded fresh Primary or Registration, a met risk demand, and a decider that in that pass allowed it, or neither denied nor panicked nor required an open step while every applicable rule was completed, stood in for by the session, or a one-of step written with Skip that was passed over |
| LoginCauses.GrantRestsOnAnswers | internal/authn/loginflow.go:880-963 | a login granted without Allow leaves no applicable rule that was not answered with a result in an event of that login, stood in for by the session, or passed over by a pass whose probes found nobody enrolled |
| LoginGrant.GrantIsEarnedAsWritten | internal/authn/loginflow.go:916-963 | the same read off the public flow: its decider's verdict is Allow, or it does not object and every public rule is completed, stood in for, a one-of step written with Skip that was passed over, or does not apply |
| LoginHistory.DemandIsMet | internal/authn/risk_eval.go:41-63 | factors the assessor demanded in any pass of any event stay demanded: no grant, even an allowed one, without one of them recorded |
| LoginReuse.LoginFlowRequiresStep | internal/authn/loginflow.go:790-837 | the check answers whether the flow refuses or demands an open factor step |
| LoginReuse.NotDemandedIsServed | internal/authn/loginflow.go:790-812 | when it demands nothing, a chain on that session grants, after at most a captcha, and never asks for a factor or refuses |
| LoginReuse.DemandedTakesAStep | internal/authn/loginflow.go:790-812 | when it demands a step, the chain grants in that event only if it recorded a step, be it one that completes without asking |
| LoginReuse.DemandedIsNotGranted | internal/authn/loginflow.go:790-812 | so where steps begin by asking, the chain does not grant before the user was asked |
| KeyFile.HasNonPrintable | op/keyset_load.go:422-429 | true iff some byte is no text |
| KeyFile.HexDecodesWhatItSpells | op/keyset_load.go:399-417 | the hex decoder accepts exactly the spellings of its result, either case |
| KeyFile.HexIsTabulated | op/keyset_load.go:399-417 | a byte has a hex value iff it is the digit listed there, in either case |
| KeyFile.DecodeSymmetricKey | op/keyset_load.go:399-417 | every accepted key has 32 bytes |
| KeyFile.TextFormIsRead | op/keyset_load.go:399-417 | every hex or base64 form of every 32-byte key, with any surrounding white space, decodes to it; the alphabets and the bit order are those of KeyFile.HexIsTabulated, Base64.CharIsTabulated and Base64.EncodedIsTheNumber |
| KeyFile.ReadingsAreExclusive | op/keyset_load.go:399-417 | the raw, hex and base64 readings exclude each other, and any order of the decoders gives the same key |
| KeyFile.ThirtyTwoByteFile | op/keyset_load.go:399-417 | a 32-byte file is taken as it stands iff some byte is no text, else refused |
| Base64.DecodeOfEncoded | op/keyset_load.go:399-417 | each of the four encodings, with line breaks anywhere, decodes to what was encoded |
| Base64.CharIsTabulated | op/keyset_load.go:399-417 | the digits are written with the literal alphabets of sections 4 and 5 of RFC 4648 |
| Base64.DigitIsTabulated | op/keyset_load.go:399-417 | a character is read as a digit iff it stands at that place of the alphabet |
| Base64.DecodedIsTheNumber | op/keyset_load.go:399-417 | the bytes decoded, read as one number, are the digits read as one number, most significant first, without the unused low bits |
| Base64.EncodedIsTheNumber | op/keyset_load.go:399-417 | the digits written, read so, are the bytes with the unused low bits zero |
| Base64.DecodersAgree | op/keyset_load.go:399-417 | any two of the four decoders that accept a text read the same bytes |
| Thumbprint.CanonicalInjective | op/keyset_load.go:361-396 | canonical forms are equal iff the keys are, within and across P-256 and RSA |
| Thumbprint.CanonicalIsTheRequiredMembers | op/keyset_load.go:370-396 | a reader of flat JSON objects finds exactly the members section 3 of RFC 7638 requires, in lexicographic order; x and y decode to the halves of the point, e and n to big-endian bytes without a leading zero that denote exponent and modulus |
| Thumbprint.AssignedKid | op/keyset_load.go:56-72 | a key goes by its file's identifier, else by the base64url form of the hash of its canonical text |
| Thumbprint.LoadKeyset | op/keyset_load.go:82-109 | accepted iff non-empty, every file loads and no two clash; keeps the file order |
| Thumbprint.KeysetIsDistinct | op/keyset_load.go:82-109 | with a collision-free hash, accepted iff identifiers and keys are pairwise distinct |
| LocaleBundles.LocaleConfig.WithLocaleBundle | op/i18n.go:405-428 | claiming key by key accepts or refuses as specified and keeps exactly the keys that did not give way |
| LocaleBundles.BuildLocaleResolver | op/op_builders.go:137-183 | the merged catalogue shows, for each tag and key, the last layer that has it, and lists each tag once |
| LocaleBundles.VerdictByName | op/i18n.go:405-428 | refused iff a bundle is empty or a claim name is made twice, for every tag |
| LocaleBundles.VerdictByKey | op/i18n.go:405-428 | where no two supplied keys make one claim: refused iff a bundle is empty or a key is supplied twice in a phase |
| LocaleBundles.PromisePerKey | op/i18n.go:405-428 | where no key is supplied twice: accepted and showing explicit, else wrapped, else seed, for all seeds, tags and keys, iff no two different supplied keys make one claim |
| LocaleBundles.PlainTagsNeverCollide | op/i18n.go:405-428 | tags without a blank never let two keys make one claim |
| LocaleBundles.CatalogueMeets | op/op_builders.go:137-183 | in every accepted configuration, whatever its tags, each message is the explicit one, else the wrapped one unless its claim name was made explicitly, else the seed's |
| LocaleBundles.NoSeedKeyIsLost | op/op_builders.go:137-183 | whatever is configured, a seeded key still has a message |
| LocaleBundles.CallOrderDoesNotMatter | op/i18n.go:405-428 | any order of the calls gives the same verdict and messages, whatever the tags |
| LocaleBundles.BlankTagsRefuseDifferentKeys | op/i18n.go:405-428 | with a blank in a tag, two different keys are refused as one |
| LocaleBundles.BlankTagsDropADefault | op/i18n.go:405-428 | with a blank in a tag, a default nobody overrode is dropped |
| NonceRing.NewSource | op/dpop_inmemory.go:48-68 | refused iff the interval is not positive or the first draw fails; starts with one nonce |
| NonceRing.Source.Rotate | op/dpop_inmemory.go:231-268 | one tick mints a nonce or counts a failure, in step with the history |
| NonceRing.Source.Run | op/dpop_inmemory.go:231-268 | after any signals the two slots and the failure count agree with the full mint history |
| NonceRing.Source.IssueNonce | op/dpop_inmemory.go:161-165 | issues the last minted nonce, never empty |
| NonceRing.Source.Validate | op/dpop_inmemory.go:183-197 | accepts exactly the last two minted non-empty values |
| NonceRing.TicksAreAccountedFor | op/dpop_inmemory.go:231-268 | rotations plus failures equal the ticks handled |
| NonceRing.OneSignal | op/dpop_inmemory.go:231-268 | a tick that draws appends its nonce to the history, one that fails adds one failure, a cancellation neither |
| NonceRing.IssuedUntilSecondRotation | op/dpop_inmemory.go:161-268 | an issued nonce is accepted until the second later rotation, and then no longer unless drawn again |
| NonceRing.CancelStops | op/dpop_inmemory.go:231-268 | after cancellation nothing is minted or counted |
| ScopeSet.ParseScopeSet | op/claim.go:170-176 | the tokens are exactly the maximal runs of non-space characters |
| ScopeSet.String | op/claim.go:187-198 | the text is the sorted listing, whatever order the set is met in |
| Text.LeqIsDictionaryOrder | op/claim.go:187-198 | the order sorted by: a prefix goes first, else the first difference decides |
| ScopeSet.ParseUndoesString | op/claim.go:170-198 | parsing undoes printing iff every token is non-empty and space-free |
| ScopeSet.PrintedIsCanonical | op/claim.go:170-198 | two texts print alike iff they carry the same tokens, and the printed form is its own |
| Policy.IntersectStrings | op/op_policy.go:300-311 | keeps exactly the common elements, in the first list's order |
| Policy.ProfileIntersection | op/op_policy.go:260-279 | absent iff no profile constrains; else exactly what all constraining profiles allow |
| Policy.IntersectionIsSymmetricAndShrinks | op/op_policy.go:260-279 | order of profiles is irrelevant and one more never widens the list |
| Policy.FilterCommutes | op/op_policy.go:216-225 | dropping the mTLS methods commutes with intersecting |
| Policy.RequirementsOnlyGrow | op/op_policy.go:14-21 | a requirement of any profile stays on when another is declared |
| Features.FeatureConfig.WithProfile | op/options_discovery.go:457-482 | refused iff unknown or repeated; enables exactly the missing valid required flags |
| Features.FeatureConfig.WithFeature | op/options_features.go:22-33 | refused iff unknown; enabling twice changes nothing |
| Features.FeatureConfig.Declare | op/options_discovery.go:457-482 | any mixture of calls: accepted iff all are known and no profile repeats; features are duplicate-free and exactly those wanted |
| Features.FeatureConfig.FillAnyOfDefault | op/options_defaults.go:129-143 | a group's default is added iff the group is unmet and the default valid |
| Features.FeatureConfig.ApplyProfileAnyOfDefaults | op/options_defaults.go:116-122 | the groups of the declared profiles are filled in order |
| Features.FillMeets | op/options_defaults.go:116-143 | the result keeps every enabled flag, is duplicate-free, meets every group with a valid default, and adds only defaults of unmet groups |
| Features.FillIsExact | op/options_defaults.go:116-143 | without conflicting groups the flags are the enabled ones and every unmet group's default |
| Features.SourceGroupsCoincide | op/profile/constraints.go:97-102 | the groups the profiles require all coincide |
| Features.OptionOrderDoesNotMatter | op/options_discovery.go:457-482 | any order of the same calls ends with the same flags when all groups coincide |
| Features.OrderWithoutConflict | op/options_defaults.go:116-143 | for any other table: any order of the same calls ends with the same flags when no two unmet groups conflict |
| Features.SwappedGroups | op/options_defaults.go:129-143 | for any other table: two unmet groups give the same flags in either order iff neither default is a non-default member of the other |
| Features.ResolveGrants | op/options_defaults.go:236-253 | the base list, then each opt-in once; duplicate-free and exactly base plus opt-ins |
| Acr.UriRoundTrip | internal/authn/aal.go:22-29 | a level's URI gives the level back iff it is one of the four |
| Acr.ResolveIsFirst | op/acr.go:105-119 | the answer is the earliest satisfied value; none iff none is satisfied |
| Acr.ResolveImproves | op/acr.go:105-125 | a stronger ceremony resolves to the same value or an earlier one |
| Acr.AgreesWithDefault | op/acr_validate.go:36-57 | a well-formed table judges canonical URIs as the default policy does iff it leaves them at their level |
| Acr.AdvertisedIsReachable | op/acr_validate.go:36-57 | advertised values are accepted iff all are satisfied at AAL3 |
| Acr.SessionJudgedAsFresh | op/acr_satisfier.go:16-22 | under every table a session satisfies what a fresh ceremony at its level does iff the level is on the ladder |
| Acr.AcrLevel | op/rs/middleware.go:140-150 | the scan finds the level the table assigns |
| Acr.CheckAcr | op/rs/middleware.go:126-136 | a token passes iff its level is known and at least the required one |
| Acr.TokenNeverOverstates | op/rs/middleware.go:126-136 | for an accepted table, a resource server never accepts more than the ceremony reached, and exactly that when nothing was requested |
| Acr.MovedUriOverstates | op/acr_validate.go:36-57 | a table the validator refuses would let a token overstate |
| Endpoints.AbsoluteEndpointURL | op/op_builders.go:817-833 | the trimming loops give the specified URL |
| Endpoints.AbsoluteURLParts | op/op_builders.go:817-833 | whatever it is given, the URL is issuer and prefix without the slashes at their ends, then the endpoint with a slash before it |
| Endpoints.AudienceIsAdvertised | internal/discovery/build.go:1045-1059 | the expected audience is the URL the discovery document shows iff the endpoint exists or issuer and prefix are only slashes |
| Endpoints.AbsoluteURLOfValid | op/op_builders.go:817-833 | on validated configuration it is plain concatenation |
| Endpoints.MountedPath | op/endpoints.go:256-290 | the routed path is the issuer's path, the prefix and the endpoint |
| Endpoints.DecodedIsSpelled | op/endpoints.go:256-290 | an escaped path decodes to exactly the text it spells, a percent sign and two digits of either case for a character |
| Endpoints.AdvertisedIsMounted | op/op_builders.go:817-833 | the advertised path decodes to the mounted one, and is spelled alike iff the issuer has no percent-encoding |
| Endpoints.EscapedIssuerDiffers | op/op_builders.go:817-833 | an issuer path "/%41" is advertised so and mounted as "/A" |
| Endpoints.AbsoluteURLInjective | op/op_builders.go:817-833 | the URL determines the endpoint and is never the issuer |
| Endpoints.WhereAnAssertionWorks | op/op_builders.go:664-726 | an assertion works where one of its audiences, a string or any array element, is the issuer, the token URL or that endpoint's own; under an issuer-audience profile only the issuer as a string |
| Endpoints.OwnUrlWorksOnlyThere | op/op_builders.go:664-726 | the PAR and CIBA URLs work as audiences at their own endpoint and nowhere else |

## Left out

- Features.OrderWithoutConflict: one direction only, for tables other than the library's; `Features.SwappedGroups` gives the exact condition for two groups, and more than two may mask a conflict between them.
- NonceRing.TicksAreAccountedFor: counts without bound; the source's counter wraps at 2^64.
- LoginContext.CaptchaAfterFailures: for a flow with one captcha rule and neither decider nor assessor; with others `LoginChoice.DeclarationOrder` says which runs.
- LoginProgress.UserGetsIn: for users enrolled everywhere, without decider and assessor, whose answers may keep anyone out.
- LoginReuse.NotDemandedIsServed: supposes that a captcha always asks the user, as the built-in one does, and that all passes of the event are answered alike.
- LoginReuse.DemandedTakesAStep: supposes that all passes of the event are answered alike.
- Embedder code that answers one context differently within one pass: predicates, probes and step beginnings are functions during a pass, and may change between passes.
- What the subject option, the issuer, metrics and the client seeds of a construction are is given beside its option list, not computed from it: the statements of `Boot.dfy` hold for every combination.
- An option that registers several entries at once: read as that many options in a row.
- Options.DisplacedDefaultIsInert: covers options made of settings; additive and flag options claim nothing and cannot be displaced.
- HTTP handlers, router mounting, CORS, cookies and user-interface templates.
- Cryptography, PEM and JSON parsing, file reading: opaque, with injectivity supposed only where a statement says so.
- State references of a login and their signing: a submission may name any step, and is accepted only for the active one.
- The phases before and after a login's factors (account chooser, consent): a chain may start with any subject the chooser bound.
- How a session's methods map to the factors they show (`amr` values): a parameter of the entry session.
- Typed nil pointers inside login flows: a missing step is one value.
- The concrete per-profile tables: parameters, so the statements hold for every table.
- Matching of escaped path segments by the HTTP router: the paths compared are the decoded ones.
- Boots that overlap in time, beyond when both can pass the gate.
- Configuration error texts, logging, audit records and metrics labels.
- One-branch option checks such as negative lifetimes: settled by one line each.
