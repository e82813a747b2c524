# LinkGuard-FW: a verified model of its stateful core

LinkGuard-FW is a firewall appliance. Five of its parts keep state that must agree with something
they do not control: a kernel, a database that may refuse a write, another administrator. This
project models those parts in Dafny and proves what they promise.

1. **Domain targets** (`internal/domtargets`). A reference-counted cache of addresses learned from
   DNS, which must agree with three nftables structures it cannot read. `DomTargets` gives each
   decision as a function of values (a relation where Go's map order is left open), `Index.Indice`
   computes the same in place, `Feeder` turns decisions into batches, `Kernel` is one nft
   transaction with element timeouts, and the retry of a refused one. `IndexRuns`, `KernelRuns` and,
   when batches fail, `KernelQueue` are about whole runs. `EffectivePlace`, `Learning` and `Deadlines`
   say what each decision must be in terms of the list and the answer alone; `KernelPlaces` and
   `BarringRuns` what that makes of the kernel.
2. **Confirm or revert** (`internal/firewallrules`). A change that could lock the administrator out
   is undone unless confirmed in 90 seconds, through crashes and a failing nft, by a three-way merge
   that spares what others wrote meanwhile. `RevertMerge` to `InputChain` are the merge,
   `ConfirmWindow`, `ConfirmSafety`, `LiveFirewall`, `Reverts` and `FirewallService` the state machine,
   `Watchdog` the timer.
3. **Domain routing** (`internal/domainrouting`). `Coordinator` decides which stored intents are
   effective and drives the index; its theorems are about the two together and, in `GateAndKernel`,
   about the kernel behind them.
4. **Byte accounting** (`internal/hosttraffic`, `internal/hostquota`). `HostTraffic`, `Rates` and
   `Sampling` turn counters into bytes and rates; `HostQuota`, `QuotaRuns` and `QuotaService` store
   the bytes by device and cycle. The sampler of the model feeds the accumulator of the model
   (`SamplerRuns`).
5. **Routes and frames.** `Weights`, `Balancer` and `RouteText` build the weighted default route and
   read it back from what `ip` prints (`internal/balancer`); `Dnstap` and `DnstapScan` are the
   format of protocol-buffer fields and its scanner (`internal/dnstap`).

`Options`, `Order`, `Bytes` and `Text` hold what these share: options, sorting, sums over maps, and
the string functions of Go that the route parser calls.

## How to read it

Each operation appears twice where the source changes state: as a specification function (or
relation) on values, about which the theorems are proved, and as a method of a class, with the
source's branches and loops, whose postcondition equates its new state with that function.

Names follow the source: Portuguese where it is Portuguese, English where it is English.

Some properties one might expect are false of the code. The model keeps the code as it is, shows a
run or an input on which the property fails, and states exactly when it holds.

- Barring does not always win at once. A domain that bars and comes to claim an address whose routed
  write is still under way does not change that write: it is confirmed, and moved by the next answer
  or list change (`PlaceExamples.RoutedThoughBarred`, `EffectivePlace.LearningKeepsInPlaceIff`,
  `EffectivePlace.WalkPutsInPlaceIff`).
- Demoting a domain and promoting it back does not always give back its addresses, even when none
  has expired: an IPv6 address shared with a blocked domain can be claimed by a routed one, and a
  replay does not take it again (`IndexExamples.RoutedIPv6IsNotReclaimed`, `RoundTrip.RoundTripIff`).
- A removal can vanish. The retry of a refused batch takes a queued removal of an address that the
  same batch writes for half of a renewal, leaves both out, and reports the removal to nobody
  (`QueueExamples.ARemovalIsLetGo`, `KernelQueue.EveryRunCoversTheKernelIff`). The same holds for one
  of two removals of one address in one refused batch. `KernelQueue.EveryRunAccountsForTheKernel`
  says what every run keeps all the same.
- Right after a refused batch, the kernel may hold what the index has forgotten; its removal is then
  in the queue (`KernelExamples.LostRemovalBreaksTheMirror`, `KernelMirror.RefusedBatchKeepsMirrorIff`).
- A revert can leave a rule without its group: a before-state rule is restored without asking
  whether its group was kept (`ConfirmExamples.RestoredRuleWithoutItsGroup`,
  `MergeProperties.TargetIsClosedIff`).
- The promise of the confirmation window breaks when a window is resolved between its own arm and its
  own write, and only by such a write (`ConfirmExamples.LateWriteBreaksThePromise`,
  `ConfirmSafety.SafeIffEveryWriteIsCovered`).
- The running firewall can lag behind a confirmed database (`ConfirmExamples.ConfirmedOutOfForce`,
  `LiveFirewall.LivelyIffEveryEndIsInForce`).
- The field scanner goes back on a declared length that wraps around 64 bits
  (`DnstapScan.CircularScanNeverEnds`, `DnstapScan.ScanAdvancesIff`).

The runs of the confirmation window assume that no group changes scope.

Where a comment and the code disagree, the model follows the code: a new entry stores the target's
mark even when it is barred (`internal/domtargets/indice.go:1029`), and no theorem assumes that
barred targets carry mark 0.

## Model

| member | source | states |
|---|---|---|
| IndexRuns.EveryRunKeepsTheIndex | internal/domtargets/indice.go:521-1248 | In every run of list changes, learning, confirmations, failures and pruning, in any order: the index is valid (each live address usable, claimed only by listed active domains whose effective capacity has a structure for its family, pending or written, with time within floor and ceiling; 64 per domain, 4096 in all), and its record of what is written agrees with an independent ledger of confirmations |
| IndexRuns.EveryAdjustmentIsFaithful | internal/domtargets/indice.go:727-789 | In every run, every removal and every replacement in an adjustment targets an address confirmed since it entered the index, in the structure the ledger says it was last confirmed in |
| Adjustments.DefinirCoerente | internal/domtargets/indice.go:521-564 | From any state, the adjustment of a list change has at most one write and one removal per address, replaces only what is written there and expiring, removes from where it was written, and removes everything written that leaves or moves |
| Adjustments.AprenderCoerente | internal/domtargets/indice.go:923-1098 | The same for the adjustment of a DNS answer |
| Adjustments.AbsorverCoerente | internal/domtargets/indice.go:1009-1098 | One absorbed address keeps an adjustment consistent, in every branch: new, already pending, moved, renewed, or only credited |
| IndexInvariant.DefinirKeeps | internal/domtargets/indice.go:521-564 | A list change keeps the invariant, whatever order the maps are walked in |
| IndexInvariant.AprenderKeeps | internal/domtargets/indice.go:923-965 | Learning an answer keeps the invariant |
| IndexInvariant.ConfirmarKeeps | internal/domtargets/indice.go:1108-1126 | Confirming any set of addresses keeps the invariant |
| IndexInvariant.NaoConfirmadoKeeps | internal/domtargets/indice.go:1139-1158 | Undoing any set of addresses keeps the invariant |
| IndexInvariant.PodarKeeps | internal/domtargets/indice.go:1224-1248 | Pruning at any instant keeps the invariant |
| IndexInvariant.GuardarEnsaioKeeps | internal/domtargets/indice.go:611-639 | A rehearsal pool never exceeds 64 addresses |
| IndexInvariant.GrampearInRange | internal/domtargets/indice.go:1166-1175 | A granted time always lies between the floor and the ceiling |
| IndexInvariant.GrampearIsNearest | internal/domtargets/indice.go:1166-1175 | It is the time between ten minutes and an hour that is nearest to the answer's |
| EffectivePlace.PlaceIsOwed | internal/domtargets/indice.go:814-847 | Whatever claims an address: if an active claimant bars, its place is the barred one; otherwise, for IPv4, routed by the mark of the active claimant whose name comes first; and there is no other |
| EffectivePlace.OwedAPlaceIff | internal/domtargets/indice.go:814-847 | There is a place exactly when an active claimant bars, or routes and the address is an IPv4 one |
| EffectivePlace.BarringWins | internal/domtargets/indice.go:727-1098 | In every run, when a domain that bars, and still does after the step, claimed an address before it, every write of that address bars it |
| EffectivePlace.NothingMovesOutOfBarring | internal/domtargets/indice.go:727-1098 | In every run, a confirmed barred address with such a claimant stays where it is, keeps the claimant and is not removed |
| EffectivePlace.AnswerWritesAreOwed | internal/domtargets/indice.go:923-965 | In every run, what a DNS answer writes is owed to all who claim the address afterwards: barred exactly when one of them bars, else by the mark of the first name |
| EffectivePlace.LearningKeepsInPlaceIff | internal/domtargets/indice.go:1047-1066 | Learning an address leaves it, or puts it, where it is owed, if and only if it is not the case that a write of it is under way and the domain that now claims it too wants it elsewhere: it bars and nobody did, or its name comes first with another mark |
| EffectivePlace.WalkPutsInPlaceIff | internal/domtargets/indice.go:727-789 | A list change puts every entry it keeps where the new list owes it, whatever it was before, if and only if the entry is not written there already with a move from there under way |
| EffectivePlace.WalkKeepsExactly | internal/domtargets/indice.go:727-789 | Exactly which entries a list change keeps, with which claimants, and which it has written again, where, and for the time granted before |
| EffectivePlace.WalkAsksExactly | internal/domtargets/indice.go:727-789 | Exactly which writes and removals the walk asks for, told by the list |
| EffectivePlace.WrittenAgainIff | internal/domtargets/indice.go:1042-1098 | A known address is written, where its claimants are owed, exactly when no write of it is under way and it is not written there, or less than a third of its time is left, or its last renewal was not confirmed |
| EffectivePlace.UndoneIsWrittenAgain | internal/domtargets/indice.go:1139-1098 | An address whose first write failed leaves; one whose renewal failed keeps its place and deadline, and the next answer writes it at once |
| PlaceExamples.RoutedThoughBarred | internal/domtargets/indice.go:1061-1066 | A history at whose end an address is confirmed as routed although an active claimant bars it; the next answer with it moves it |
| Learning.AnswerTouchesOnlyTheAcceptable | internal/domtargets/indice.go:923-965 | A DNS answer changes, writes and removes nothing but usable addresses of it that are not protected and have a structure to go to, and adds only claims of the domain it matched; without an active match it changes no entry and asks for nothing |
| Learning.AnswerIsClaimed | internal/domtargets/indice.go:923-965 | With room, the matched active domain ends up claiming every such address of the answer and no other new one |
| Learning.AnswerEntersAs | internal/domtargets/indice.go:1009-1039 | How a new address enters: claimed by that domain alone, being written where it sends it, for the answer's time within the limits, and written nowhere until confirmed |
| Learning.ProtectedNeverEnters | internal/domtargets/indice.go:974-991 | In every run, as long as an address is protected the index never takes it in, by an answer or by a promotion, and asks the kernel nothing about it |
| Learning.RehearsalRemembers | internal/domtargets/indice.go:611-639 | An answer for a domain in rehearsal asks for nothing, and its usable addresses are in the pool with the new deadline, when they fit |
| Learning.FullPoolMakesRoom | internal/domtargets/indice.go:611-639 | A full pool drops what has expired and takes the new address exactly when that makes room |
| Learning.PromotionClaimsThePool | internal/domtargets/indice.go:657-689 | A domain promoted by itself claims exactly the addresses of its pool that are unexpired, usable, unprotected and enterable, with room in the index |
| Learning.PromotionKeepsThePool | internal/domtargets/indice.go:657-689 | Its pool keeps exactly what is unexpired and acceptable |
| Learning.PromotionGrantsWhatIsLeft | internal/domtargets/indice.go:681-685 | What it brings into the index is written for the time left of what the pool had learned, within the limits |
| Learning.LowestEnterFirst | internal/domtargets/indice.go:664-671 | When not everything fits, a new address gets in only if every acceptable lower one of the pool is claimed |
| Deadlines.EveryGrantIsTheLastConfirmation | internal/domtargets/indice.go:1108-1126 | In every run, a written entry expires the granted time after its last confirmation |
| Deadlines.PrunedThirtySecondsLate | internal/domtargets/indice.go:1224-1248 | In every run, pruning drops a written address exactly when no write of it is under way and its last confirmation is the granted time and thirty seconds back |
| Deadlines.PruningLeaves | internal/domtargets/indice.go:1224-1248 | What pruning leaves is unchanged, and a pool loses exactly what is thirty seconds past its deadline |
| NameMatching.MostSpecificWins | internal/domtargets/indice.go:884-898 | A domain is matched exactly when it is the longest listed suffix, at a label boundary, of the name in lower case and without the blanks and dots around it |
| NameMatching.NormalizedNames | internal/domtargets/indice.go:885-885 | No name that is matched starts or ends in a dot or has an ASCII capital letter |
| NameMatching.OnlyAsciiMatters | internal/domtargets/indice.go:884-885 | The lower case of letters outside ASCII does not matter: any that agrees on what is, or becomes, ASCII matches every name alike, since every listed name is ASCII |
| RoundTrip.DemoteThenPromote | internal/domtargets/indice.go:657-689 | Demoting a domain and restoring the list, whenever what it claims fits in its pool with what is there already, and the pool in the index (an empty pool always leaves room): it claims nothing in between, and afterwards exactly those of its addresses and of its pool that are unexpired, unprotected and enterable under its own capacity |
| RoundTrip.NothingElseComesBack | internal/domtargets/indice.go:611-689 | With room or without, demoting a domain and restoring the list gives it no claim that it did not have, or have in its pool, or that has expired or may not enter |
| RoundTrip.RoundTripIff | internal/domtargets/indice.go:611-689 | The round trip gives back the same claims if and only if every claimed address is unexpired, unprotected and enterable under the domain's own capacity, and no other address of its pool is |
| IndexExamples.RoutedIPv6IsNotReclaimed | internal/domtargets/indice.go:657-689 | A history of the index, and a demotion and promotion at its end, after which an IPv6 address that a routed domain shares with a blocked one is not claimed again, although nothing expired or is protected |
| ListChanges.ADefinitionIsPossible | internal/domtargets/indice.go:521-564 | From every state every list change has an outcome: the relation that leaves the order of maps open is never empty |
| ListChanges.LastRowDecides | internal/domtargets/indice.go:525-542 | The last row of a name decides; what cannot be read bars, and is a rehearsal |
| ListChanges.NobodyPromotedNothingReplayed | internal/domtargets/indice.go:727-789 | A list change that promotes nobody leaves exactly the reconciled entries and emits exactly the commands of the walk |
| RoundTrip.RoundTripCommands | internal/domtargets/indice.go:727-789 | On the way down one removal for each confirmed address the domain alone claimed and no write; on the way up one write for each that comes back and no removal |
| RoundTrip.CommandsDown | internal/domtargets/indice.go:727-789 | An address only the demoted domain claimed leaves the index, with a removal exactly when it was confirmed |
| RoundTrip.CommandsUp | internal/domtargets/indice.go:657-689 | An address outside the index gets a write exactly when the promotion brings it back |
| Index.Indice.DefinirAlvos | internal/domtargets/indice.go:521-564 | Replaces the list in place: the new state and the adjustment are one of those the specification `Definir` allows (it leaves the order of map iteration open); keeps the invariant and the counters per domain |
| Index.Indice.Reconciliar | internal/domtargets/indice.go:727-789 | Walks every entry: drops inactive claimants into their pools, removes, moves or keeps it by its effective capacity; the result is an allowed walk |
| Index.Indice.ReconciliarUm | internal/domtargets/indice.go:733-787 | One entry of the walk: its entry, commands and the pools afterwards |
| Index.Indice.RetirarInativos | internal/domtargets/indice.go:733-745 | Inactive claimants leave the entry, and their rehearsal pool takes the address if there is room |
| Index.Indice.ReplayEnsaio | internal/domtargets/indice.go:657-689 | A promotion absorbs the domain's unexpired pool in address order; the pool keeps every unexpired address that is acceptable, and no other |
| Index.Indice.GuardarEnsaio | internal/domtargets/indice.go:611-639 | The pool after storing an answer: expired ones first out, the cap respected |
| Index.Indice.Aprender | internal/domtargets/indice.go:923-965 | State and adjustment after a DNS answer, equal to the specification's |
| Index.Indice.AbsorverEndereco | internal/domtargets/indice.go:1009-1039 | Entry, counters and commands after one learned address |
| Index.Indice.AbsorverConhecido | internal/domtargets/indice.go:1042-1098 | The same for an address already in the index, with the early return on a pending one |
| Index.Indice.CapEfetiva | internal/domtargets/indice.go:814-847 | Barring wins; otherwise the mark of the least active domain name; nothing without an active claimant |
| Index.Indice.Casar | internal/domtargets/indice.go:884-898 | Normalises the name; the loop over label boundaries then computes the match of the specification |
| Index.Indice.Confirmar | internal/domtargets/indice.go:1108-1126 | Exactly the named pending entries become written where they were asked, for the time granted |
| Index.Indice.NaoConfirmado | internal/domtargets/indice.go:1139-1158 | Exactly the named pending entries go back or leave; returns how many were pending |
| Index.Indice.Podar | internal/domtargets/indice.go:1224-1248 | Exactly the entries and pool items past their deadline and the slack leave; returns how many entries |
| Index.Indice.Soltar | internal/domtargets/indice.go:792-797 | An entry leaves and each claimant's counter goes down by one |
| Index.Indice.DefinirProtegidos | internal/domtargets/indice.go:492-502 | The protected set is replaced and nothing else changes |
| Feeder.MontarLote | internal/domtargets/servico.go:691-738 | The four lists of the batch, as sets and in address order: additions to the structure of each write, deletions for removals and for replacements |
| Feeder.BuiltBatch | internal/domtargets/servico.go:691-738 | When no address is written twice in one structure, a built batch is family-correct and free of duplicates, and deletes exactly what is removed or replaced |
| Kernel.BatchIsWellFormed | internal/domtargets/servico.go:691-738 | Every address of a batch has the family of its list, and no list names an address twice |
| Kernel.BatchOfSameSets | internal/domtargets/servico.go:744-770 | The batch does not depend on the order of the commands it is built from |
| Feeder.Alimentador.Acumular | internal/domtargets/servico.go:438-448 | The last write per address and capability wins; a removal keeps the attempts of the one it replaces |
| Feeder.Alimentador.Montar | internal/domtargets/servico.go:476-505 | What is pending becomes one well-formed batch |
| Feeder.Alimentador.Descarregar | internal/domtargets/servico.go:476-507 | What is handed over is the batch of exactly what was pending, with its removals; nothing pending is dropped unless it has no structure to go to or leave |
| Feeder.Alimentador.RecolocarRemocao | internal/domtargets/servico.go:455-469 | A removal that failed goes back into the queue once; the second time it is given up and counted |
| Feeder.Alimentador.Devolver | internal/domtargets/servico.go:607-618 | Returned removals are requeued one by one, or all counted as given up when there is no room for them |
| Feeder.Alimentador.Aplicar | internal/domtargets/servico.go:557-586 | Each addition of the batch is confirmed or undone as the result says; exactly the removals left undone that the batch still carries come back |
| Feeder.EveryAdditionIsAnswered | internal/domtargets/servico.go:557-586 | After any result, no addition of the batch is left pending |
| Feeder.OneAdjustmentOneBatch | internal/domtargets/servico.go:438-507 | An adjustment with one write and one removal per address becomes exactly its own batch |
| KernelMirror.MirrorIsExact | internal/domtargets/indice.go:1108-1126 | Under the mirror, with element timeouts left out, the kernel holds exactly the addresses the index marks written, in their recorded structure, with their recorded mark |
| KernelMirror.NeverInTwoStructures | internal/domtargets/indice.go:727-789 | Under the mirror no address is held in two structures at once |
| KernelMirror.BatchAccepted | internal/domtargets/servico.go:691-738 | Every deletion of a batch names an element the kernel was given; the kernel accepts the batch if and only if none of them has expired |
| KernelMirror.ConfirmedBatchKeepsMirror | internal/domtargets/indice.go:1108-1126 | An accepted and confirmed batch, deletions first, keeps the mirror |
| KernelMirror.RefusedBatchKeepsMirrorIff | internal/domtargets/indice.go:1139-1158 | Right after a refused batch, before its removals are tried again, the mirror stands if and only if each of them was harmless to leave undone |
| KernelExamples.LostRemovalBreaksTheMirror | internal/domtargets/indice.go:1139-1158 | A run of index and kernel, and a next decision whose batch is refused, after which the kernel holds an address that the index has forgotten |
| Kernel.RetryIs | internal/nftables/dominios.go:271-300 | What the retry of a refused batch writes, which renewals it leaves out, and which removals it reports undone |
| Kernel.HeldIsNotOverwritten | internal/nftables/dominios.go:243-267 | An element that is held and not deleted keeps its mark and deadline, whatever a batch writes over it |
| KernelQueue.EveryRunCoversTheKernelIff | internal/domtargets/servico.go:557-618 | In every run of decisions and batches, accepted, refused or retried, with removals requeued, retried and given up: whatever the kernel holds is registered in the index, or its removal is queued, or it was given up, throughout, if and only if no refused batch lets go a removal to any harm. Both conditions are on the queue, the decision and the kernel before the answer: a removal is let go when another of its address is carried in its place or a retry takes it for half of a renewal; that is harmless when its element expires, was given up, or is registered and not moved by the retry |
| KernelQueue.EveryRunAccountsForTheKernel | internal/domtargets/servico.go:557-618 | In every such run, with no condition: what the kernel holds is registered, queued for removal, given up, or still as it was when a refused batch let its removal go |
| KernelQueue.RoundKeepsCoverIff | internal/domtargets/servico.go:557-586 | One round keeps that if and only if each removal its refused batch lets go is harmless, in the same terms |
| KernelQueue.LetGoOrAnswered | internal/domtargets/servico.go:557-605 | The removals let go are exactly those that neither happened nor came back |
| KernelQueue.HarmlessIs | internal/domtargets/servico.go:557-586 | Before the answer it is known whether a removal let go is harmless: exactly when its element, if still held afterwards, is registered or given up |
| KernelQueue.NothingIsLetGo | internal/domtargets/servico.go:596-605 | Nothing is let go when no two pending removals are of one address and, if the batch is retried, none is of an element it also writes |
| KernelQueue.RequeuedAre | internal/domtargets/servico.go:455-469 | The queue after a return holds exactly the returned removals on their first failure |
| Feeder.GivenUpAtTheSecondFailure | internal/domtargets/servico.go:455-469 | What is given up on a return is exactly what had failed before |
| Feeder.FailuresAreKept | internal/domtargets/servico.go:438-448 | Asking again for a queued removal keeps its failures, and a new one has none |
| KernelQueue.RoundAnswersAll | internal/domtargets/servico.go:557-586 | After any round no entry waits for an answer, the index is valid and the queue well keyed |
| QueueExamples.ARemovalIsLetGo | internal/nftables/dominios.go:243-267 | A run in which a retry takes a queued removal for half of a renewal: the kernel holds the address, the index has dropped it, and the removal is neither queued nor given up but let go |
| KernelMirror.PruneKeepsMirror | internal/domtargets/indice.go:1224-1248 | Pruning keeps the mirror |
| KernelMirror.PruneForgetsOnlyExpired | internal/domtargets/indice.go:1224-1248 | An entry that pruning drops is no longer held by the kernel |
| KernelRuns.EveryRunMirrorsTheKernel | internal/domtargets/indice.go:521-1248 | In every run where each adjustment becomes one batch, answered before the next decision, accepted whole or refused with no removal in it, the mirror holds in every reachable state |
| KernelRuns.EveryBatchIsAccepted | internal/domtargets/servico.go:691-738 | In every such run the kernel accepts a batch exactly when nothing it deletes has expired |
| KernelPlaces.EveryEntryIsWanted | internal/domtargets/indice.go:727-1126 | In every such run, every entry between batches is written where one of its active claimants wants it |
| KernelPlaces.HeldForOneThatWantsIt | internal/domtargets/indice.go:727-1126 | So whatever the kernel bars is claimed by an active domain that bars, and whatever it routes by an active domain that routes, with that domain's mark |
| BarringRuns.EveryRunIsInPlace | internal/domtargets/indice.go:814-847 | In every such run in which the pools of promoted domains share no address with each other or with a move of the same list change, every entry is where its claimants are owed |
| BarringRuns.BarredIffAClaimantBars | internal/domtargets/indice.go:814-847 | In these runs the kernel bars what it holds of an address if and only if an active claimant bars, and routes the rest by the mark of the first name |
| KernelRuns.PruneNeverForgetsAHeldAddress | internal/domtargets/indice.go:1224-1248 | In every such run, at any later instant, pruning forgets no address that the kernel still holds |
| KernelRuns.GrantIsTheLastWrite | internal/domtargets/indice.go:1108-1126 | In a run with every batch confirmed, what an entry was granted is its last write |
| KernelRuns.RenewalsAreSpaced | internal/domtargets/indice.go:1042-1098 | Two renewals of one address are more than its time minus a third apart |
| KernelRuns.RenewalsAreFew | internal/domtargets/indice.go:1042-1098 | In time T an address is renewed at most 1 + T/(floor minus a third) times |
| Coordinator.EffectiveIffAllowed | internal/domainrouting/coordinator.go:193-258 | An intent is effectively active if and only if it is stored active and nothing suspends it |
| Coordinator.SuspendedBecause | internal/domainrouting/coordinator.go:193-258 | The reason shown for an intent is exactly the first closed gate in the source's order, told by the intent, the gate, the blocking group and the last link of that id |
| Coordinator.PublishedIs | internal/domainrouting/coordinator.go:159-252 | The published list entirely: a domain is in it exactly when some readable intent has it, and the last one gives its capability, whether it is active (exactly when allowed) and its mark, the 32-bit table of its link |
| Coordinator.ActiveIffLastIsAllowed | internal/domainrouting/coordinator.go:159-191 | A domain is active in the list if and only if its last readable intent is allowed |
| Coordinator.ActiveIsAllowed | internal/domainrouting/coordinator.go:159-191 | A domain active in the published list comes from a stored, allowed intent of the same capability and mark |
| Coordinator.EveryClaimantIsAllowed | internal/domainrouting/coordinator.go:159-191 | After a reconcile and any later learning, confirmation, failure and pruning, every claimant of every live address has an allowed intent of the capability it is listed with, and the gate is open |
| Coordinator.ClosedGateEmptiesTheIndex | internal/domainrouting/coordinator.go:144-149 | Publishing with the gate closed empties the index, writes nothing, and removes exactly each confirmed address, once |
| Coordinator.DomainCoordinator.ResolveAll | internal/domainrouting/coordinator.go:159-192 | The published list and the views, one per stored intent, in order |
| Coordinator.DomainCoordinator.Reconcile | internal/domainrouting/coordinator.go:159-191 | A failed read changes nothing but the failure flag; a good one publishes the list and advances the generation |
| Coordinator.DomainCoordinator.Prepare | internal/domainrouting/coordinator.go:129-139 | The gate is open afterwards exactly when the read succeeded, and then the list is published as an open gate allows |
| Coordinator.DomainCoordinator.Hold | internal/domainrouting/coordinator.go:144-149 | Closes the gate; when the read succeeds the index is empty and one removal per confirmed address is emitted |
| GateAndKernel.HeldOnlyForAllowedIntents | internal/domainrouting/coordinator.go:159-258 | Coordinator, index and kernel together: in every reachable state, whatever the kernel holds is claimed only by domains of stored intents that are active and not suspended, of the capability listed, under the last published list |
| GateAndKernel.RoutedByTheLinkOfItsIntent | internal/domainrouting/coordinator.go:193-252 | Whatever the kernel routes, in every reachable state, carries as mark the 32-bit table of a link that is enabled, configured and online or degraded, named by an allowed routed intent of one of its claimants |
| GateAndKernel.BarredByItsIntent | internal/domainrouting/coordinator.go:193-252 | Whatever it bars is claimed by a domain with an allowed barring intent, and the blocking group is there and enabled |
| GateAndKernel.HeldForAllowedOrOnItsWayOut | internal/domainrouting/coordinator.go:159-258 | In every run through refused and retried batches: what the kernel holds is registered, or queued for removal, or given up, or let go by a refused batch; and whoever claims its address has an allowed intent of the capability listed |
| GateAndKernel.ClosedGateLeavesOnlyTheDeparting | internal/domainrouting/coordinator.go:144-149 | With a closed gate, in every run through refused and retried batches, what the kernel still holds is queued for removal, given up, or let go by a refused batch |
| GateAndKernel.ClosedGateEmptiesTheKernel | internal/domainrouting/coordinator.go:144-149 | Once the list of a closed gate was published and its batch answered, the kernel holds no address, for as long as it is the last list |
| MergeProperties.UndisturbedIsLiteral | internal/firewallrules/revert_merge.go:81-153 | If nobody wrote after the window's mutation, the target is the state before it, literally, settings included |
| MergeProperties.GroupContract | internal/firewallrules/revert_merge.go:81-153 | A group that diverged and never reaches the input chain is as it is now; any other is as it was |
| MergeProperties.RuleContract | internal/firewallrules/revert_merge.go:81-153 | The same for rules, except that one whose group vanishes is left out, and exactly those are reported dropped |
| MergeProperties.TargetGroupsInOrder | internal/firewallrules/revert_merge.go:262-276 | The groups of a merged target are numbered from zero in the order of the positions, creation and ids they had where they come from |
| MergeProperties.TargetRulesInOrder | internal/firewallrules/revert_merge.go:281-295 | And so are its rules |
| InputChain.InputPartIs | internal/firewallrules/revert_merge.go:240-245 | What reaches the input chain is exactly the administrator groups in the input scope and their rules |
| InputChain.SystemGroupIsTheirs | internal/firewallrules/revert_merge.go:240-245 | A system group is never among them, whatever its scope says: one that someone else wrote stays as it is |
| MergeProperties.TargetIsClosedIff | internal/firewallrules/revert_merge.go:124-127 | From a state without orphans, the target has an orphan rule if and only if a restored rule's group was removed by someone else |
| ConfirmExamples.RestoredRuleWithoutItsGroup | internal/firewallrules/revert_merge.go:124-127 | A run of the service whose revert leaves a rule in the database without its group |
| MergeProperties.MergeIsIdempotent | internal/firewallrules/confirm.go:1114-1147 | Merging again with the first target as the before-state gives the same groups and rules up to position |
| InputChain.MergeRestoresInputChain | internal/firewallrules/revert_merge.go:81-153 | If no group changes scope, the target has exactly the before-state's input groups and their rules, same content up to position and same order, whatever else diverged |
| InputChain.TargetIsListed | internal/firewallrules/revert_merge.go:262-295 | The target lists its rows without repeated ids and in order |
| InputChain.TargetIsScoped | internal/firewallrules/revert_merge.go:240-255 | Exactly the same groups reach the input chain in the target, and their rules are with them |
| Merging.MergeRevertTarget | internal/firewallrules/revert_merge.go:81-153 | The loops compute the target of the specification, and the audit lists exactly the rows kept from, or removed by, someone else, and the rules dropped |
| Merging.MergeGroups | internal/firewallrules/revert_merge.go:92-112 | The pass over groups: rows that stay and audit lines |
| Merging.MergeRules | internal/firewallrules/revert_merge.go:114-143 | The pass over rules: rows that stay, audit lines and dropped rules |
| Merging.Index | internal/firewallrules/revert_merge.go:157-171 | The index of a state by id |
| Merging.UnionIds | internal/firewallrules/revert_merge.go:175-188 | Lists the ids of the three tables, each once, in increasing order |
| Merging.Renumber | internal/firewallrules/revert_merge.go:262-295 | Sorted by position, creation and id, then numbered from zero |
| ConfirmSafety.EveryRunIsSafe | internal/firewallrules/confirm.go:429-1265 | In every run of guarded mutations, any number in flight, with windows confirmed, reverted and timed out at any moment, crashes between any steps, failing nft, retries, boot reverts and forward-only writes by others: as long as every write is covered by an open window or changes no input part, the input-reaching groups and rules in the database equal the last confirmed ones when no window is pending or it is reverting, and otherwise those of its snapshot do |
| ConfirmSafety.SafeIffEveryWriteIsCovered | internal/firewallrules/confirm.go:429-1265 | And only then: the invariant holds throughout a run if and only if every write is covered |
| ConfirmSafety.StepKeepsSound | internal/firewallrules/confirm.go:974-1076 | One step keeps the invariant if and only if it is not an uncovered write; confirmations, reverts and timeouts are harmless whenever they come |
| ConfirmSafety.WriteKeepsSoundIff | internal/firewallrules/apply_guarded.go:175-225 | A write keeps it exactly when an open window covers it or its input part is the confirmed one |
| ConfirmSafety.UncoveredWriteIsUnsafe | internal/firewallrules/apply_guarded.go:175-225 | An uncovered write breaks the promise at once, or as soon as the write of the mutation whose window is open fails |
| ConfirmSafety.UnresolvedIsCovered | internal/firewallrules/apply_guarded.go:175-225 | Every write is covered in a run that resolves no window between its own arm and its own write |
| ConfirmExamples.LateWriteBreaksThePromise | internal/firewallrules/apply_guarded.go:175-225 | A run in which a window times out between its own arm and its own write, and the late write breaks the promise |
| LiveFirewall.LivelyIffEveryEndIsInForce | internal/firewallrules/confirm.go:614-661 | In every run with covered writes, the running firewall has the confirmed input part whenever no window is pending or one waits for its write, throughout, if and only if every window is confirmed, or cleared by the next arm, while firewall and database agree |
| LiveFirewall.StepKeepsLivelyIff | internal/firewallrules/confirm.go:614-661 | The same for one step |
| Reverts.RevertDoneIff | internal/firewallrules/confirm.go:974-1256 | A revert is done exactly when the steps it has left all succeed; then the window is gone and the firewall runs the database, and otherwise the window is still there |
| Reverts.UndisturbedRevertRestores | internal/firewallrules/confirm.go:974-1076 | When nobody else wrote, a finished revert leaves the saved rows literally and each saved setting whose write succeeds; with all of them the database is the snapshot |
| Reverts.MergedRevertKeepsSettings | internal/firewallrules/confirm.go:1027-1053 | A merged revert touches no setting, and one that had begun touches nothing in the database |
| Reverts.EveryWindowIsCurable | internal/firewallrules/confirm.go:974-1076 | In every run, the machine can be rebuilt from what a pending window saved |
| Reverts.RecordedByItsOwnMutation | internal/firewallrules/confirm.go:1197-1209 | In every run, what a pending window has as applied is what its own mutation recorded; the late mark of another touches nothing |
| Reverts.InterruptedRevertRemembers | internal/firewallrules/confirm.go:1114-1147 | A revert that stops after choosing what to put back has stored it, and is marked as begun only after the rows were replaced |
| Reverts.RetryPutsBackTheSame | internal/firewallrules/confirm.go:1114-1147 | And the next one puts back the same rows, up to positions |
| Reverts.EveryRevertCanSucceed | internal/firewallrules/confirm.go:974-1076 | In every run with covered writes, a revert of which no step fails ends the window and puts the confirmed input part back in database and firewall |
| Reverts.EveryBootRestores | internal/firewallrules/confirm.go:907-923 | So at boot whatever window is found is reverted, expired or not, and none is left |
| Reverts.EveryExpiredWindowIsReverted | internal/firewallrules/confirm.go:781-799 | And so does a check from the deadline on, by the right clock, or once a revert has begun; before that it changes nothing |
| FirewallService.MutationSucceedsIff | internal/firewallrules/apply_guarded.go:175-225 | A mutation succeeds if and only if it is valid, nothing locks it, and each of its steps succeeds |
| ConfirmExamples.ConfirmedOutOfForce | internal/firewallrules/confirm.go:614-661 | A run in which a window is confirmed after a failed reconcile and a failed revert: the database keeps the promise and the firewall lags behind |
| FirewallService.RefusedMutationChangesNoTable | internal/firewallrules/apply_guarded.go:175-225 | A mutation stopped before its write leaves tables and live rules as they were, and one stopped by a lock or a check leaves everything so |
| FirewallService.AppliedMutation | internal/firewallrules/apply_guarded.go:175-225 | A successful mutation is in the database and live, and its window holds the state before it |
| FirewallService.AbortedMutation | internal/firewallrules/apply_guarded.go:393-432 | A mutation that nft refuses leaves the input part as before, and the whole tables when its state was recorded; if the undo fails its window is still pending |
| FirewallService.AbortRestores | internal/firewallrules/confirm.go:974-1076 | A finished revert leaves no window, live rules equal to the database, and the snapshot's input part |
| FirewallService.Service.OpenConfirmWindow | internal/firewallrules/confirm.go:429-507 | Opens a window over the state as it is, or refuses because of another that is not settled |
| FirewallService.Service.ConfirmPending | internal/firewallrules/confirm.go:614-661 | Confirming the pending window by its id closes it and touches no table |
| FirewallService.Service.DiscardWindow | internal/firewallrules/confirm.go:702-724 | Only a window that is not reverting and whose id matches goes |
| FirewallService.Service.FinishSettledRevert | internal/firewallrules/confirm.go:740-763 | A reverting window whose state is in place is closed |
| FirewallService.Service.MarkWindowApplied | internal/firewallrules/confirm.go:1197-1209 | Records the state after the mutation in the window |
| FirewallService.Service.ChooseTarget | internal/firewallrules/confirm.go:1114-1147 | The merge target is stored in the window before it is applied; nothing changes when that fails |
| FirewallService.Service.DoRevert | internal/firewallrules/confirm.go:974-1076 | Success leaves no window and live rules equal to the database; failure keeps the window |
| FirewallService.Service.Finish | internal/firewallrules/confirm.go:1233-1256 | Closes the window only after the live rules follow the database |
| FirewallService.Service.RevertPending | internal/firewallrules/confirm.go:672-687 | Reverts the window of that id and no other |
| FirewallService.Service.CheckPendingExpired | internal/firewallrules/confirm.go:781-799 | Reverts exactly an expired or a reverting window |
| FirewallService.Service.RevertPendingOnBoot | internal/firewallrules/confirm.go:907-923 | Any window found at boot is reverted |
| FirewallService.Service.ApplyGuarded | internal/firewallrules/apply_guarded.go:175-225 | The sequence of steps, with its undo after each failure, ends in the state and stage of the specification |
| Watchdog.NeverRevertedEarly | internal/firewallrules/confirm.go:834-839 | In every life of the process, and whatever the wall clock says, a check that touches a window opened in this process comes at least 90 monotonic seconds after it was opened |
| Watchdog.DeadlineIsNinetySecondsLater | internal/firewallrules/confirm.go:429-507 | In every life, a deadline in memory is the instant of the last opening plus 90 seconds |
| Watchdog.AttemptedOnceExpired | internal/firewallrules/confirm.go:781-799 | From the deadline on, a tick attempts the revert |
| Watchdog.EveryLifeIsTimely | internal/firewallrules/confirm.go:1423-1457 | In every life, the timer never waits for more than a minute, nor past the deadline of a window it has not attempted yet |
| Watchdog.FirstTickAfterDeadlineAttempts | internal/firewallrules/confirm.go:1423-1457 | In every life, the first tick at least 90 seconds after the opening is not skipped and attempts the revert |
| Watchdog.BackoffDoublesToAMinute | internal/firewallrules/confirm.go:1331-1346 | The k-th doubling is min(60 s, interval times 2^(k-1)), for intervals in (0, 60 s], without overflow |
| Watchdog.BackoffOfTheLoop | internal/firewallrules/confirm.go:1423-1457 | After k failed attempts in a row, skipped ticks between them or not, the loop waits what the k-th doubling says |
| Watchdog.LoopBackoffDoublesToAMinute | internal/firewallrules/confirm.go:1357-1362 | So it waits min(60 s, interval times 2^(k-1)) |
| Watchdog.PatienceAfterFailure | internal/firewallrules/confirm.go:1357-1362 | After a failed revert the next attempt is put off, by at most a minute |
| Watchdog.AttemptsAreClose | internal/firewallrules/confirm.go:1423-1457 | With regular ticks, consecutive attempts of the loop are less than 60 s and one interval apart |
| Watchdog.AttemptsAreSpaced | internal/firewallrules/confirm.go:1423-1457 | After the k-th failed revert in a row the next attempt comes no earlier than min(60 s, interval times 2^(k-1)) later |
| Watchdog.NextAttemptComes | internal/firewallrules/confirm.go:1423-1457 | While ticks keep coming for a minute after an attempt, there is a next one |
| Watchdog.AttemptedIffNotSkipped | internal/firewallrules/confirm.go:1423-1457 | A tick attempts exactly when it is not before the instant the last failure set |
| Watchdog.WatchPending | internal/firewallrules/confirm.go:1423-1457 | The loop attempts at exactly those ticks |
| QuotaRuns.EveryByteIsAccountedFor | internal/hostquota/hostquota.go:305-430 | In any interleaving of samples, flush steps, read and write failures, moves of a cycle and quota changes: bytes accepted of a device equal bytes in memory plus what its rows gained |
| QuotaRuns.EachCycleGetsItsBytes | internal/hostquota/hostquota.go:305-370 | With a fixed quota, each cycle's row gains exactly the bytes measured in that cycle, except those still in memory |
| QuotaRuns.RowAfterFlush | internal/hostquota/hostquota.go:305-370 | With nothing left in memory, the row gained the sum of the deltas measured in its cycle |
| QuotaRuns.ScheduleIndependence | internal/hostquota/hostquota.go:340-370 | Two runs with the same samples of a device end with the same row, whenever their flushes ran and whichever failed |
| QuotaRuns.MemoryBalance | internal/hostquota/hostquota.go:264-283 | A step moves bytes between queue, flight and table; only a sample brings new ones |
| HostQuota.MoveConserves | internal/storage/repo_hostquota.go:226-266 | Moving a cycle to another key keeps the total of every device |
| HostQuota.RowMoved | internal/storage/repo_hostquota.go:226-266 | The old row is gone, the new one has both, every other row is as it was |
| HostQuota.AcceptedIff | internal/hostquota/hostquota.go:673-749 | Exactly which quotas are accepted, and what is stored of them |
| HostQuota.RowOfASample | internal/hostquota/hostquota.go:473-485 | A sample goes to the row of the cycle of the declared period and closing day, and of the calendar month when none is declared |
| QuotaService.Service.AddHostBytes | internal/hostquota/hostquota.go:240-255 | The sample is added to what is queued for that device and instant; unidentified and silent devices are not queued |
| QuotaService.Service.Devolver | internal/hostquota/hostquota.go:264-283 | What could not be written is added back to what arrived meanwhile |
| QuotaService.Service.Flush | internal/hostquota/hostquota.go:305-370 | What could not be written stays queued, everything when the quotas cannot be read; the rest is in the row of the cycle it was measured in |
| QuotaService.Service.Gravar | internal/hostquota/hostquota.go:340-369 | The rows gain exactly the samples whose write succeeded; the others are returned |
| QuotaService.Service.Save | internal/hostquota/hostquota.go:673-749 | When it succeeds and when it does not, what it stores, when it moves the current cycle, and that no device's total changes |
| QuotaService.Service.Delete | internal/hostquota/hostquota.go:765-785 | The limit goes to zero and every sample still belongs to the row it belonged to |
| HostTraffic.NeverMoreThanTheGrowth | internal/hosttraffic/sampler.go:167-326 | Through resets, handovers, absences and failed readings, bytes credited for an address never exceed the growth its counters showed |
| HostTraffic.OwnedAddressIsCreditedItsGrowth | internal/hosttraffic/sampler.go:167-326 | An address present throughout with one known owner is credited exactly the sum of the rises of its counters, resets included |
| HostTraffic.MeasuredIsTheRise | internal/hosttraffic/sampler.go:207-223 | What one sample measures on each side is how much its counter rose, and nothing across a change of owner |
| HostTraffic.ResetCreditsNothing | internal/hosttraffic/sampler.go:214-223 | A counter that went back credits nothing on its side and shows no rate there |
| HostTraffic.StableAddressIsCreditedInFull | internal/hosttraffic/sampler.go:167-326 | An address present throughout, with one known owner and counters that never go back, is credited last minus first, whatever readings and neighbour tables fail |
| HostTraffic.CreditGoesToTheOwner | internal/hosttraffic/sampler.go:191-218 | A credit goes to the owner last read since the address appeared, and never across a change of owner |
| HostTraffic.CreditedAndRatedIff | internal/hosttraffic/sampler.go:191-260 | A sample is credited exactly when a counter rose under a known owner that did not change, and rated exactly when a counter rose and time passed; the first one is neither |
| HostTraffic.RateTimesTimeIsGrowth | internal/hosttraffic/sampler.go:219-260 | A rate is non-negative and, times the elapsed time, exactly the growth of the counter, under the owner who is credited, or under "outros" when nobody is |
| HostTraffic.CreditedOnce | internal/hosttraffic/sampler.go:249-251 | What one device is credited for an address is part of what was credited in all |
| Rates.Publicar | internal/hosttraffic/sampler.go:266-325 | Published rates, with "outros", add up to the measured ones; each of at most fifty named series is the whole rate of one device, and none left out is faster |
| Rates.Juntar | internal/hosttraffic/sampler.go:266-278 | The rates of one device are added up, over all its addresses |
| Rates.Ordenar | internal/hosttraffic/sampler.go:280-292 | One entry per device, largest first, equal ones by label |
| Rates.Repartir | internal/hosttraffic/sampler.go:294-318 | The first fifty entries but "outros" are named, the rest is added up, and nothing is lost |
| Rates.GroupingKeepsTheSum | internal/hosttraffic/sampler.go:266-278 | Adding rates up by device keeps the sum, in any order of the devices |
| Sampling.Sampler.SampleOnce | internal/hosttraffic/sampler.go:167-326 | One round: the memory of every address, the credits handed to the quota, and the series; a failed reading of the counters changes nothing |
| Sampling.Sampler.UmEndereco | internal/hosttraffic/sampler.go:187-260 | One address: what is remembered, credited and measured, the credit before the guard on elapsed time |
| Sampling.Sampler.PodarAusentes | internal/hosttraffic/sampler.go:331-337 | Addresses gone from the counters are forgotten, and no other |
| SamplerRuns.QuotaReceivesWhatAddressesCredit | internal/hosttraffic/sampler.go:167-326 | Over a whole run, whatever readings fail and in whatever order addresses are visited, what the quota of a device received is the sum of what each address was credited to it |
| SamplerRuns.DeviceIsCreditedWhatIsRead | internal/hosttraffic/sampler.go:167-326 | Over any rounds, failed ones included, an address that the first neighbour table gives to a device, and none to another, credits it exactly the rises of the counters read |
| SamplerRuns.GoneStartsAnew | internal/hosttraffic/sampler.go:331-337 | An address that was gone for a round starts anew: what it counted meanwhile is credited to nobody |
| SamplerRuns.SamplerCredits | internal/hosttraffic/sampler.go:187-218 | The credits of a round depend on the history of each address alone |
| Sampling.CreditsReachTheQuota | internal/hosttraffic/sampler.go:249-251 | The quota's queue gains exactly the bytes that the sampler credits each device |
| Weights.WeightIsMonotone | internal/balancer/service.go:1070-1091 | A larger raw weight never gets a smaller share |
| Weights.RoundingIsNearest | internal/balancer/service.go:1070-1091 | Scaled by the largest raw weight, a weight is within half of it of 256 times the raw one, before the floor at 1 |
| Weights.FloorLiftsOnlyTheSmallest | internal/balancer/service.go:1070-1091 | Exactly which raw weights the floor at 1 lifts |
| Weights.LargestGetsTheWholeRange | internal/balancer/service.go:1070-1091 | The largest raw weight becomes 256 |
| Weights.NormalizeWeights | internal/balancer/service.go:1070-1091 | In place, every nexthop gets the scaled weight and nothing else changes |
| Balancer.SelectNexthops | internal/balancer/service.go:938-1015 | The chosen nexthops are exactly the enabled, configured, up links, in order, each with its share; carriers are the healthy links, else one least degraded, else all; the others weigh 1 |
| Balancer.InRouteIffUsable | internal/balancer/service.go:941-957 | A link is in the route exactly when it is enabled, configured and up |
| Balancer.ExcludedIffItCannotCarry | internal/balancer/service.go:941-957 | A link is shown as excluded exactly when it cannot carry and has a gateway or an interface |
| Balancer.WhoCarries | internal/balancer/service.go:962-992 | While a link is online exactly the online ones carry; when none is online or degraded all do |
| Balancer.DegradedCarrierIsTheBest | internal/balancer/service.go:962-992 | With none online, the carrier is a degraded link that loses least and, among those that lose as little, is fastest |
| Balancer.LegOfItsLink | internal/balancer/service.go:938-1015 | Each nexthop has the gateway and the interface of its link, and weight 1 when that does not carry |
| Balancer.SomeoneCarries | internal/balancer/service.go:962-992 | Some link of a non-empty route is a carrier |
| Balancer.EveryWeightIsValid | internal/balancer/service.go:938-1015 | Every chosen weight lies in 1..256 |
| Balancer.CarriersKeepTheirOrder | internal/balancer/service.go:938-1015 | Among carriers, weights are monotone in the raw weights |
| Balancer.CarriersKeepTheirRatios | internal/balancer/service.go:938-1015 | A carrier with a non-negative raw weight is within half of the largest of its exact share, unless the floor lifts it |
| Balancer.DemotedCarryLittle | internal/balancer/service.go:938-1015 | With a carrier of positive raw weight, k demoted links carry at most k/(256+k) of the total |
| Balancer.Split | internal/balancer/service.go:941-957 | Usable links, and excluded ones that have something to show, each in order |
| Balancer.Elect | internal/balancer/service.go:962-992 | Which links carry the traffic |
| Balancer.CarrierWeights | internal/balancer/service.go:995-1004 | The normalized weight of each carrier, by link |
| RouteText.BuildReplaceArgs | internal/balancer/service.go:1095-1112 | Nothing for no nexthops; otherwise the table and one leg per nexthop, in order, weights at least 1 |
| RouteText.RestoreArgsFromShow | internal/balancer/service.go:1116-1152 | The loops compute the specification `Restored`, multipath and single path |
| RouteText.ParseNexthopFields | internal/balancer/service.go:1154-1189 | The cursor loop reads each key with the word after it, and rebuilds the leg |
| RouteText.ParseSinglePathFields | internal/balancer/service.go:1193-1226 | The same for the form with one gateway |
| RouteText.RouteRoundTrip | internal/balancer/service.go:1116-1152 | Any text, however spaced, with the words of a multipath route restores exactly the arguments built for its legs |
| RouteText.PrintedRouteRoundTrip | internal/balancer/service.go:1116-1152 | Printing any non-empty nexthop list in the layout of `ip route show` and restoring gives the arguments that were built |
| RouteText.SinglePathRoundTrip | internal/balancer/service.go:1116-1152 | Any text with the words of a route with one gateway restores that gateway and interface, onlink if it was, and nothing else |
| Text.DecimalStandsFor | internal/balancer/service.go:1108-1109 | The decimal form of a weight stands for it |
| RouteText.ReadLeg | internal/balancer/service.go:1154-1189 | The words of a leg read back as the leg, whatever gateway and interface are called |
| RouteText.SplitFlat | internal/balancer/service.go:1126-1134 | Splitting at "nexthop" gives back the words of each leg |
| DnstapScan.ScanAdvancesIff | internal/dnstap/protobuf.go:104-113 | For any bytes, the scan only goes forward if and only if no position it comes to declares a length that, added to the position, does not fit in 64 bits |
| DnstapScan.LeadsBackIff | internal/dnstap/protobuf.go:107-113 | One iteration leads back exactly when the declared length does not fit |
| DnstapScan.ForwardScanIsTheFormat | internal/dnstap/protobuf.go:81-171 | A scan that only goes forward ends, within as many iterations as there are bytes, with what the format says |
| DnstapScan.CircularScanNeverEnds | internal/dnstap/protobuf.go:107-113 | An 11-byte frame on which the scan for another field is back at the start after every iteration |
| DnstapScan.CircularScanSlicesBackwards | internal/dnstap/protobuf.go:107-111 | The same frame, scanned for that field: the slice would end before it starts |
| DnstapScan.ScanUndoesTheEncoder | internal/dnstap/protobuf.go:81-171 | For any encoded list of varint, 64-bit, length-delimited and 32-bit fields, the scan ends with the first field of the number and type, or nothing |
| DnstapScan.ScanFindsTheFirst | internal/dnstap/protobuf.go:81-171 | The same for any well-formed message, however its varints are written |
| DnstapScan.FirstOfItsNumber | internal/dnstap/protobuf.go:81-171 | What is looked for in a list of fields is the first of its number and kind |
| DnstapScan.ScanFailsOnlyOnMalformed | internal/dnstap/protobuf.go:81-124 | A scan that only goes forward fails only on a malformed message, for the reason that makes it so; on one it does not reject it has found the field |
| Dnstap.MessageRoundTrip | internal/dnstap/protobuf.go:81-124 | Any list of fields reads back from its encoding |
| Dnstap.UvarintUndoesPut | internal/dnstap/protobuf.go:83-86 | A 64-bit varint reads back, whatever follows it |
| Dnstap.UvarintFits | internal/dnstap/protobuf.go:83-86 | What is read always fits in 64 bits |
| Dnstap.ReadUvarint | internal/dnstap/protobuf.go:83-86 | The loop over bytes computes the varint, with its length and overflow limits |
| DnstapScan.LerValor | internal/dnstap/protobuf.go:89-116 | One value by wire type in 64-bit arithmetic, and where the next iteration starts |
| DnstapScan.Varrer | internal/dnstap/protobuf.go:81-171 | The first n iterations of the loop, for any bytes and either kind of field |
| DnstapScan.RespostaDNS | internal/dnstap/protobuf.go:47-63 | Composes the scans as the specification does, errors included |
| DnstapScan.ResponsesOnly | internal/dnstap/protobuf.go:47-63 | An encoded frame yields its response exactly for message types 4 and 6, and nothing for the rest |

## Left out

Simplifications in what is modelled:

- Domain targets: the telemetry counters, the rotation statistics, warnings and the screen's rows are not modelled; they decide nothing.
- Domain targets: whether an address is usable is a flag of the address, protected prefixes are the set of addresses they cover, and the normalised domain name is an optional input.
- Domain targets: an entry is a value in the map, owned by one key, where the source shares a reference; `escrito*` and `pend*` are options.
- Domain targets: the floor and ceiling of times are the constants of the nftables package, which is otherwise not part of this model.
- Feeder: goroutines, channels and timers become steps in any order; whether the return channel has room is an input.
- Kernel: a failed `nft -f` leaves the kernel as it was, for whatever reason it failed; the clamping of times in the script is not modelled (the index has clamped them).
- NameMatching: a letter outside ASCII keeps its case unless its lower case is ASCII; no listed name can tell (`NameMatching.OnlyAsciiMatters`). Bytes that are not UTF-8 are not modelled.
- RoundTrip: when what a demoted domain claims does not fit in its pool with what is there already, which of it is kept depends on the order of Go's map; of these only `RoundTrip.NothingElseComesBack` is claimed.
- KernelRuns: the exact mirror is claimed of runs in which each adjustment becomes one batch, answered before the next decision, and accepted whole or refused whole with no removal in it. They start from a new index over flushed structures.
- KernelQueue: each adjustment goes with everything queued and is answered, and what comes back is requeued, before the next decision. That an address the index marks written is in the kernel is not claimed of these runs: a removal that belongs to a refused move is retried although the index still has the address where it was.
- Confirm or revert: a locked method is one atomic step with a flag for each effect that may fail; a crash may come between steps and loses the monotonic deadline and the mutation in flight.
- Confirm or revert: JSON is equality of values, timestamps are integers, and the whole-second truncation of the stored deadline is not modelled; rows that tie on position and creation time are ordered by id.
- BarringRuns: list changes that promote domains whose pools share an address, with each other or with a move of the same change, are left to `KernelPlaces.EveryEntryIsWanted`, which says less.
- Watchdog: `SecondsLeft`, the log gate and the audit text are not modelled.
- Coordinator: creating, editing and deleting intents, and the metrics of the screen, are not modelled.
- HostQuota: bytes are unbounded integers, where the source and its table wrap at 64 bits; the calendar of cycles is any function of instant, period and closing day.
- QuotaService: the two-level queue by device and instant is one map with both as its key; alerts, retention of old rows and the evaluation of limits are not modelled.
- Sampling: rates are real numbers; the random order of Go's maps is an order given as a ghost result.
- Balancer: integers are unbounded, so that a raw weight whose product with 256 overflows is not covered; loss and latency are real numbers; choosing links when ids repeat is not modelled (they are primary keys).
- RouteText: what `ip` prints is the layout of its multipath form with any leading words; the rollback timer and its races are not modelled.
- DnstapScan: the loops are run for a given number of iterations, because they need not end; positions in error texts are not modelled.
- DnstapScan: the two loops of the source, which spell out the same switch, are one method with what it looks for as an input.

Not modelled at all:

- HTTP handlers, the panel, boot wiring, command-line flags, logging and alert wording.
- Calls to `nft`, `ip`, `apt`, systemd, journal and sockets, beyond a step that succeeds or leaves the kernel as it was.
- SQL and JSON storage, beyond atomic operations that may fail.
- Authentication, backup encryption, TOTP, dynamic DNS, SMART, the assistant layer, journal and name-service parsers: wrappers, or parts whose properties are easy.
