# Host-staged distributed layer: models and proofs

This project models the distributed layer with which the repository lets one model run on several GPUs whose only
working interconnect is host memory (collectives over gloo), and proves what that layer is relied upon for.
`dafny verify dfyconfig.toml` checks everything.

- **Transfer of tensor dictionaries** (`TensorDict`, `Transfer`, `TransferInvariant`, `TransferProofs`,
  `TransferTheorems`, `TransferWire`, `BackToBack`, `Broadcast`). `isend_tensor_dict` and `irecv_tensor_dict` are a
  step system: one lane per tensor-parallel rank, two FIFO channels per lane, gathers over the receiving group, any
  rank or message may move next, sends may or may not be buffered. Every sender and every receiver has its own
  dictionary, all-gather group and overrides. Delivery, termination and the exact condition for completion are proved
  over every run. `BackToBack` has several transfers in a row on one lane, the next one begun while receives of
  earlier ones are still posted.
- **Arithmetic of the host-staged reductions** (`Bits`, `Floats`, `AllReduce`). Rounding is modelled exactly on
  integers in units of 2^-149 (IEEE 754-2019, sections 3.6 and 4.3.1; bfloat16 is 8 digits with binary32's exponent
  range) and proved to be roundTiesToEven. The order of additions is an arbitrary tree, chosen per element.
- **Collectives as index arithmetic** (`Tensors`, `Collectives`, `ReduceScatter`, `Uneven`, `UnevenAxes`,
  `UnevenGather`). A tensor is a shape and a flat row-major sequence; buffers are arrays that the transport fills.
  The reductions are over any element type, widened, reduced in any order and cast back; with fp32 staging that is,
  element by element, the all-reduce (`AllReduce.StagedIsReducedElement`).
- **The rank grid** (`RankGrid`) and **group creation in lockstep** (`Names`, `Lockstep`).
- **Node discovery** (`NodeDiscovery`, `NodeCount`): the shared-memory handshake as a step system, and the counting
  loop.
- **The two-GPU benchmark** (`Async`, `Bench`): a host thread, out-of-order queues, events, and commands that
  process their elements in any order. Schedule independence is proved for every program that keeps a
  synchronisation discipline, and the benchmark is shown to keep it.
- `Prelude` and `Arith` hold what the others share.

## Where the code falls short of its promise

- `reduce_scatter` along an axis from 2 on: the two `movedim(0, dim)` do not undo each other, so the result is not
  the rank's slice along `dim` and in general not of the shape `reduce_scatter_fake` promises.
  `ReduceScatter.AlwaysSliceIff` gives the exact condition, `ReduceScatter.LastAxisOfCube` an input where even the
  shape is right and the data is not.
- `reduce_scatterv` moves axes in the same way. `UnevenAxes.AlwaysShareIff` gives its exact condition, for equal and
  unequal sizes; `UnevenAxes.UnevenCube` is an input where even the shapes are right and the data is not,
  `UnevenAxes.UnevenRaises` one where sizes that add up along the axis asked for are rejected.
- A comment says that DCP splits TP groups (`fusion_patch/parallel_state.py:1614-1617`), but the code only needs the
  DCP size to divide the world; `RankGrid.DcpRefinesTpIff` says when the comment is right, `RankGrid.DcpCrossesTp`
  shows six ranks for which it is not.
- `in_the_same_node_as` reports a rank of another node as local when that node holds a segment of the announced name
  that starts with the magic message (`NodeDiscovery.RightIffNothingStale`), and then `_node_count` may return fewer
  nodes than there are (`NodeCount.CountsNodesIff`, and `NodeCount.NamesakeMiscounts` for two nodes counted as one);
  and when the source cannot create its segment, the suppressed error also skips the announcement all other ranks
  are waiting for (`NodeDiscovery.FinishedRunReturnsIff`).
- A sliced transfer completes if and only if the two ends of every lane decide alike on every key (or the group has
  one rank), slices divide evenly, and the receivers gather tensors of the same sizes and element types in the same
  order (`TransferTheorems.TransferCompletesIff`). The code ensures none of the three. Without any override, a
  tensor of 4 elements on one rank and of 3 on the other leaves the first receiver waiting for a gather the second
  never enters (`TransferTheorems.SizesDiffer`), and tensors of 4 elements of two types meet in one gather
  (`TransferTheorems.DtypesDiffer`); an override that slices 3 elements in two stops both ends
  (`TransferTheorems.OverrideFails`); overrides at the receiving ends alone stop every receiver
  (`TransferTheorems.EndsDisagree`).
- The timed part of the benchmark accumulates until binary32 overflows, from round 128 on (`Bench.SingleRounds`).

## Model

| member | source | states |
|---|---|---|
| TensorDict.SplitTensorDict | fusion_patch/parallel_state.py:85-108 | the loop yields one metadata entry per key in order and the tensors in the same order, as the two list functions define them |
| TensorDict.FlattenSlices | fusion_patch/parallel_state.py:912-916 | the equal slices of a tensor, one per rank and joined in rank order, are the tensor, whenever the group size divides it |
| TransferInvariant.StreamsAlign | fusion_patch/parallel_state.py:902-926 | the messages one sender puts on a channel and the receives its peer posts there are for the same entries in the same order, whatever each end's own policy says about slicing |
| Transfer.LengthsAgreeIff | fusion_patch/parallel_state.py:819-831 | for a non-empty tensor the message has the length the receiver waits for exactly when both ends decide alike or the group has one rank, and then it is the expected slice or tensor |
| TransferProofs.FillArrives | fusion_patch/parallel_state.py:1015-1047 | a message filling the oldest posted receive leaves the entry correctly filled, or raises exactly when the ends disagree on it |
| TransferProofs.GatheredIsRows | fusion_patch/parallel_state.py:1027-1036 | when all receivers have entered the g-th deferred gather, what they contribute are the rows of the g-th sliced tensors, and they are of one length and type exactly when those tensors are of one size and type |
| TransferProofs.NextPreserves | fusion_patch/parallel_state.py:674-735 | every step of any rank or message keeps the invariant (size before object before tensors, channels and posted receives aligned, gathers entered in one order), and under the condition for success no step makes a rank fail |
| TransferProofs.RunInv | fusion_patch/parallel_state.py:966-1050 | for any dictionaries and policies the invariant holds in every state of every run; under the condition for success no rank has failed |
| TransferTheorems.Delivery | fusion_patch/parallel_state.py:871-1050 | for any dictionaries and policies, in every state of every run, a receiver that is done agreed with its sender on every key, divided evenly whatever it sliced, found its sizes and element types at every other receiver, and holds the sender's keys in order with unsliced values unchanged and sliced values rebuilt from all senders' rows |
| TransferTheorems.DeliversAsSentIff | fusion_patch/parallel_state.py:881-926 | under the condition for success, what every receiver is delivered is exactly its own sender's dictionary if and only if the sliced tensors are replicated over the group |
| TransferTheorems.EarliestGather | fusion_patch/parallel_state.py:1027-1036 | where the receivers gather tensors of the same sizes and types in the same order, the earliest gather waited for can complete: the deferred gathers cannot wait for each other in a cycle |
| TransferTheorems.NeverStuck | fusion_patch/parallel_state.py:871-1050 | if the ends agree, slices divide and sizes and types match, some rank can move in every reachable state until all are done |
| TransferTheorems.RunBounded | fusion_patch/parallel_state.py:871-1050 | for any dictionaries and policies the remaining work strictly decreases with every step of every run, failing steps included |
| TransferTheorems.DoneMeansGood | fusion_patch/parallel_state.py:871-1050 | in any run, if everybody is done then the ends agreed on every key, slices divided evenly and sizes and types matched, and every receiver holds its dictionary |
| TransferTheorems.TransferCompletesIff | fusion_patch/parallel_state.py:871-1050 | for any dictionaries and policies every run is bounded, and a run that cannot continue has everybody done if and only if the ends agree on every key, slices divide evenly and the receivers gather tensors of the same sizes and element types in the same order |
| TransferTheorems.SizesDiffer | fusion_patch/parallel_state.py:819-831 | default policy, a tensor of 4 elements on one lane and of 3 on the other: the ends agree and slices divide, yet the first receiver is never done |
| TransferTheorems.DtypesDiffer | fusion_patch/xpu_communicator.py:77-98 | default policy, tensors of 4 elements but of different types on the two lanes: the ends agree and slices divide, yet no receiver is ever done |
| TransferTheorems.OverrideFails | fusion_patch/parallel_state.py:912-916 | an override to True on 3 elements over two lanes: the ends agree and sizes match, yet no sender and no receiver is ever done |
| TransferTheorems.EndsDisagree | fusion_patch/parallel_state.py:1013-1047 | overrides to False at the receivers only: slices divide and sizes match, yet no receiver is ever done |
| TransferTheorems.UndividableNeverSent | fusion_patch/parallel_state.py:912-916 | in every run, a sender told to slice a tensor that does not divide evenly never gets past its send loop |
| TransferTheorems.DefaultPeersAgree | fusion_patch/parallel_state.py:463-475 | the default destination and the default source are inverse to each other on the group, and a rank is its own default peer only when it is alone |
| TransferWire.OnTheWire | fusion_patch/parallel_state.py:819-926 | in every state of every run a message is the pickled length or the metadata, on the metadata channel, or a non-empty tensor of the dictionary, on the metadata channel exactly if it is on the CPU: the rank's row of it if there is an all-gather group and the key's override, or without one divisibility, says so, else the whole |
| TransferWire.UnheldKeysDoNotMatter | fusion_patch/parallel_state.py:826-831 | configurations that differ only in overrides for keys no dictionary holds, None and a map alike, have the same runs |
| TransferWire.OtherKeyOverridden | fusion_patch/parallel_state.py:826-831 | senders that exempt "residual" and receivers that exempt nothing, a tensor "x" of 4 elements on two lanes: the condition for success holds and every payload in any run has 2 elements |
| TransferWire.RebuiltElement | fusion_patch/parallel_state.py:1027-1036 | element p of a rebuilt tensor is that of the sender in whose row p lies, whether or not the senders hold the same data |
| TransferWire.WaitedFor | fusion_patch/parallel_state.py:674-700 | when sends are not buffered, a sender in its loop has had its size and object taken, and one that is done has had everything taken |
| BackToBack.SeriesLined | fusion_patch/parallel_state.py:871-1050 | for any number of transfers on a lane, all messages of all transfers line up with all receives of all transfers, in order, on each channel |
| BackToBack.SeriesRunInv | fusion_patch/parallel_state.py:871-1050 | in every state of every run every dictionary entry of every transfer holds that transfer's own data or still has a receive of that transfer posted for it, although messages carry no transfer number; if the ends agree, neither raises |
| BackToBack.Progress | fusion_patch/parallel_state.py:674-735 | if the ends agree, the blocking receives of a size or an object never wait in a cycle with receives and handles of earlier transfers: something can move until all calls have returned and all handles are served |
| BackToBack.SeriesCompletesIff | fusion_patch/parallel_state.py:871-1050 | for any transfers, policies and choice of when either end waits for handles, every run is bounded, and a run that cannot continue has returned from every call with every handle served if and only if the ends agree on every key of every transfer and slice evenly; then each dictionary holds its own transfer's data |
| BackToBack.SecondDisagrees | fusion_patch/parallel_state.py:1013-1047 | two transfers in a row, the receiver overriding only in the second: the ends agree on the first, yet in no run do all calls return with their handles served |
| BackToBack.AlwaysSettled | fusion_patch/parallel_state.py:863-869 | where both ends wait for all handles before the next transfer, nothing of an earlier one is in flight or posted when the next begins |
| Broadcast.BroadcastDelivers | fusion_patch/parallel_state.py:737-817 | a receiver reading the two groups' broadcasts in order rebuilds exactly the source's dictionary |
| Broadcast.SentFrom | fusion_patch/parallel_state.py:766-780 | only non-empty tensors are broadcast, on the metadata group exactly if they are on the CPU |
| Broadcast.Source | fusion_patch/parallel_state.py:760-785 | the source broadcasts the metadata and then each non-empty tensor on the group of its device, in order |
| Broadcast.Receiver | fusion_patch/parallel_state.py:786-817 | one pass over the metadata computes the rebuilding that the round trip is about, including the mismatch case |
| Floats.RepresentableIsFloat | fusion_patch/xpu_communicator.py:65-72 | the format's values are exactly the significands of p digits times a power of two from the smallest quantum on |
| Floats.RoundMagIsNearestEven | fusion_patch/xpu_communicator.py:65-72 | the modelled rounding is the only function that is nearest with ties to even |
| Floats.AddRounds | fusion_patch/xpu_communicator.py:65-72 | the sum of two finite values is the exact sum rounded to nearest-even, infinite exactly when that overflows, and +0 for an exact zero of unlike signs |
| Floats.ConvertRounds | fusion_patch/xpu_communicator.py:65-72 | a cast rounds to nearest-even, infinite exactly when that overflows, and keeps NaN and infinities |
| Floats.DoubleRounding | fusion_patch/xpu_communicator.py:65-72 | rounding the exact sum or difference of two narrow values first to the wide format changes nothing when the wide one has at least 2p+1 digits |
| Floats.StagedAddIsNarrowAdd | fusion_patch/xpu_communicator.py:65-72 | widening, adding and casting back is the narrow addition rounded once, with subnormals, overflow, infinities, signed zeros and NaN |
| AllReduce.HostStagedAllReduce | fusion_patch/xpu_communicator.py:65-72 | every element returned is the contributions widened to binary32, added in binary32 along that element's order and cast to the tensor's type; for the half types that sum, when finite, is within ((1 + 2^-24)^(W-1) - 1) times the summed magnitudes of the exact sum |
| AllReduce.ThreeRanks | fusion_patch/xpu_communicator.py:65-72 | fp16 ranks holding 2048, 0.75 and 0.75, added in rank order, all get 2050, which adding in fp16 would not give |
| AllReduce.HalfTypesRoundApart | fusion_patch/xpu_communicator.py:69 | 1 + 2^-8 over two ranks is exact in fp16 and 1 in bf16 |
| AllReduce.HalfTypesOverflowApart | fusion_patch/xpu_communicator.py:69 | 2^15 + 2^15 over two ranks is infinite in fp16 and 2^16 in bf16 |
| AllReduce.TotalsSnoc | fusion_patch/xpu_communicator.py:65-72 | the exact sum and the summed magnitudes the bounds refer to grow by each contribution's value and magnitude |
| AllReduce.TwoRankAllReduce | fusion_patch/xpu_communicator.py:65-72 | for two ranks, any order at either rank gives the exact sum rounded once to the tensor's type, hence the same value on both |
| AllReduce.AddRelativeError | fusion_patch/xpu_communicator.py:65-72 | one binary32 addition is off by at most 2^-24 of the exact sum |
| AllReduce.AmplifiedIsGrowth | fusion_patch/xpu_communicator.py:65-72 | the bound built up one rounding at a time is (1 + 2^-24)^k times the value, and that factor grows by 1 + 2^-24 each time from 1 |
| AllReduce.TreeError | fusion_patch/xpu_communicator.py:115-122 | a finite binary32 sum along any tree is within that growth of the exact sum, relative to the summed magnitudes |
| AllReduce.StagedSumError | fusion_patch/xpu_communicator.py:65-72 | for any number W of ranks and any order, the staged sum before the cast is within ((1 + 2^-24)^(W-1) - 1) times the summed magnitudes of the exact sum, both taken in rank order |
| AllReduce.StagedCastError | fusion_patch/xpu_communicator.py:115-122 | the cast keeps the sign, lands on a narrow value and moves the sum by at most half a unit in the last place |
| Collectives.PipelineIsCat | fusion_patch/xpu_communicator.py:77-98 | gather into a buffer, view as a stack, move the rank axis, merge it: this is concatenation along the axis, for every rank of tensor, shape, axis and world size |
| Collectives.AllGather | fusion_patch/xpu_communicator.py:77-98 | the call succeeds exactly for -rank <= dim < rank and returns the concatenation along axis dim mod rank, so dim and dim + rank give the same, in the shape of all_gather_fake; one rank returns its input |
| Collectives.XpuGather | fusion_patch/xpu_communicator.py:236-268 | it succeeds exactly for -rank <= dim < rank; the rank that is dst gets the concatenation along axis dim mod rank, every other rank nothing |
| Collectives.BaseGather | fusion_patch/base_device_communicator.py:259-288 | the list and cat based gather does the same on every rank, shape and axis |
| ReduceScatter.ReduceScatter | fusion_patch/xpu_communicator.py:100-131 | for any element type and staging: it succeeds exactly if -rank <= dim < rank and W divides the axis that comes to the front; the result's shape along axis dim mod rank and, element by element, which index of the inputs it widens, reduces and casts back |
| ReduceScatter.LowAxesAreSlices | fusion_patch/parallel_state.py:156-161 | for dim 0 and 1 that is the rank's slice of the reduction along dim in the promised shape, for any element type and order of reduction |
| ReduceScatter.SourceHighAxes | fusion_patch/xpu_communicator.py:100-131 | for dim from 1 on the scattered axis is always axis 1, and where each axis and element ends up |
| ReduceScatter.MoveTwiceIff | fusion_patch/xpu_communicator.py:100-131 | moving axis 0 to dim twice restores every shape exactly when dim is 0 or 1 |
| ReduceScatter.HighAxisFails | fusion_patch/xpu_communicator.py:100-131 | for dim from 2 on, two or more ranks and at least one element, some input gets the wrong slice |
| ReduceScatter.AlwaysSliceIff | fusion_patch/xpu_communicator.py:100-131 | the exact condition under which every input gets its slice |
| ReduceScatter.LastAxisOfCube | fusion_patch/parallel_state.py:156-161 | a 2 x 2 x 2 tensor over two ranks along the last axis: promised shape, wrong elements |
| Uneven.ReduceScatterV | fusion_patch/xpu_communicator.py:133-174 | it succeeds exactly if -2 rank <= dim < rank (the dim is not checked and counts from the end twice) and the sizes given are W and add up to the axis that comes to the front, or none are given and W divides it; the result along axis dim mod rank is the share of exactly those sizes, or of equal ones, element by element |
| Uneven.ScatterRows | fusion_patch/xpu_communicator.py:146-170 | between the axis moves both branches give the rank's rows of the reduction, which start at the sum of the sizes before it; sizes, equal or not, are accepted exactly if they are W and add up |
| Uneven.StagedShare | fusion_patch/xpu_communicator.py:155-172 | widening whole tensors, cutting, reducing and casting back is reducing element by element with every contribution widened and the result cast back |
| Uneven.EqualShare | fusion_patch/xpu_communicator.py:165-170 | with equal sizes the plain reduce-scatter's block is the share that the prefix sums give |
| UnevenAxes.LowAxesAreShares | fusion_patch/xpu_communicator.py:133-174 | for dim 0 and 1 and any sizes, equal or not, the result is the rank's rows of the reduction along dim in the promised shape |
| UnevenAxes.ShareHighAxes | fusion_patch/xpu_communicator.py:133-174 | for dim from 1 on the scattered axis is always axis 1, and where each axis and element ends up |
| UnevenAxes.EqualSharesScatter | fusion_patch/xpu_communicator.py:165-170 | with equal sizes a tensor is the result of reduce_scatterv if and only if it is that of reduce_scatter, along every axis |
| UnevenAxes.AlwaysShareIff | fusion_patch/xpu_communicator.py:133-174 | for sizes that add up along dim, every input gets the rank's rows along dim if and only if dim is 0 or 1, or the sizes also add up along axis 1, the shape read two axes on is the shape itself, and there is no element or a single place on each axis up to dim |
| UnevenAxes.UnevenCube | fusion_patch/xpu_communicator.py:133-174 | sizes 1 and 2 along the last axis of a 3 x 3 x 3 tensor: promised shapes, wrong elements |
| UnevenAxes.UnevenRaises | fusion_patch/xpu_communicator.py:146-149 | sizes 1 and 2 along the last axis of a 1 x 2 x 3 tensor add up there, yet the call fails on every rank |
| UnevenAxes.UnevenRows | fusion_patch/xpu_communicator.py:133-174 | three rows over two ranks with sizes 1 and 2: the first rank gets row 0 of the sum, the second rows 1 and 2 |
| UnevenAxes.EvenRows | fusion_patch/xpu_communicator.py:100-131 | four rows over two ranks along axis -1: two consecutive rows of the sum each, in rank order |
| UnevenGather.AllGatherV | fusion_patch/xpu_communicator.py:176-234 | for one tensor, on any rank: it succeeds exactly for dim 0 when every rank's part has its size or, without sizes or with sizes that are all equal, when all parts have the same number of rows; the parts are joined in rank order in a shape they fill |
| UnevenGather.AllGatherVList | fusion_patch/xpu_communicator.py:225-234 | for a list of tensors, each is gathered as if alone, and one that fails makes the call fail |
| UnevenGather.ScatterThenGather | fusion_patch/xpu_communicator.py:133-234 | uneven reduce-scatter and then uneven all-gather is the all-reduce, for every W sizes that add up to the leading axis, or none if W divides it, any element type and any order of reduction that both follow at each position; it fails for all others |
| RankGrid.Partition | fusion_patch/parallel_state.py:1586-1713 | rank r stands at place i of group g exactly when g and i are its group and place: each family partitions the ranks |
| RankGrid.SameGroupIff | fusion_patch/parallel_state.py:1586-1713 | two ranks share a group exactly when they agree on every coordinate outside the family's axes |
| RankGrid.Places | fusion_patch/parallel_state.py:358-363 | the place in the TP, PCP, PP and DP group is the coordinate on that axis, and in the EP group it is (dp * PCP + pcp) * TP + tp |
| RankGrid.GroupMembers | fusion_patch/parallel_state.py:1586-1713 | in closed form, for every external block, DP, PP, PCP and TP coordinate: the rank, and the number and place in the TP, PCP, PP, DP and EP lists at which it stands |
| RankGrid.PositionsDetermineRank | fusion_patch/parallel_state.py:1586-1713 | the external block and the four positions give the global rank |
| RankGrid.EveryPositionIsARank | fusion_patch/parallel_state.py:1586-1713 | every combination of positions belongs to a rank |
| RankGrid.TpMeetsPpOnce | fusion_patch/parallel_state.py:1594-1665 | a TP group and a PP group share at most one rank |
| RankGrid.DcpRefinesTpIff | fusion_patch/parallel_state.py:1612-1624 | every DCP group lies in one TP group exactly when the DCP size divides the TP size |
| RankGrid.DcpCrossesTp | fusion_patch/parallel_state.py:1612-1624 | six ranks, TP 3, DCP 2: the DCP group of ranks 2 and 3 lies in two TP groups |
| RankGrid.TpSplitsIntoDcp | fusion_patch/parallel_state.py:1612-1624 | then each TP group is split into TP/DCP consecutive DCP groups, rank by rank |
| RankGrid.ElasticIsTranslated | fusion_patch/parallel_state.py:1560-1665 | row block * (rows per block) + g of the static TP, DCP, PCP or PP layout is row g of the elastic local layout plus the block's first rank |
| Names.DecimalInjective | fusion_patch/parallel_state.py:114-125 | different counters have different numerals |
| Names.NameExamples | fusion_patch/parallel_state.py:114-125 | the first "tp" is "tp:0", the thirteenth "ep" is "ep:12" |
| Names.UniqueNameInjective | fusion_patch/parallel_state.py:114-125 | name and counter can be read off a unique name, even if the name itself contains colons and digits |
| Names.IssuedDistinct | fusion_patch/parallel_state.py:114-131 | whatever names are asked for, no unique name is issued twice within a process |
| Lockstep.Process.GetUniqueName | fusion_patch/parallel_state.py:114-125 | the name carries the number of earlier requests for it, and the counters stay right |
| Lockstep.Process.CreateGroups | fusion_patch/parallel_state.py:342-363 | the loop issues a device and a cpu group per list, for all lists, and keeps the list the rank is in |
| Lockstep.CallsAt | fusion_patch/parallel_state.py:342-357 | list g costs exactly a device group and then a gloo group of its ranks, as calls 2g and 2g + 1 |
| Lockstep.Process.NewCoordinator | fusion_patch/parallel_state.py:323-366 | its calls, its name, its registration and what it keeps, given everything the process did before |
| Lockstep.Process.InitializeModelParallel | fusion_patch/parallel_state.py:1558-1736 | a call that succeeds asks for exactly "tp", "dcp", "pcp", "pp" and, in the static layout, "dp", then "ep" if and only if the model is MoE, then "eplb" if and only if EPLB is on as well; in the elastic layout those go to the stateless coordinator on the same conditions; all calls and kept groups are those of the lists, under "ep" the group of the rank's coordinates; it fails exactly when a reshape does, so neither not-None assertion can fail |
| Lockstep.ReshapesFit | fusion_patch/parallel_state.py:1570-1624 | the sizes are accepted exactly if dp * pp * pcp * tp divides the world, and DCP exactly if it divides the world and, in the elastic layout, pp * pcp * tp |
| Lockstep.CapturedIff | fusion_patch/parallel_state.py:358-366 | a coordinator keeps a group if and only if some list contains the rank |
| Lockstep.FamilyKept | fusion_patch/parallel_state.py:358-363 | of each family the rank keeps exactly the group and position its grid coordinates name |
| Lockstep.DcpKept | fusion_patch/parallel_state.py:1618-1636 | of the DCP groups every rank keeps exactly number rank / DCP, at position rank % DCP |
| Lockstep.ElasticKept | fusion_patch/parallel_state.py:1560-1665 | what a rank keeps of its block's TP, PCP or PP groups in the elastic layout is what its global rank keeps in the static one, counted from the block's first rank, at the same position |
| Lockstep.ElasticDcpKept | fusion_patch/parallel_state.py:1618-1636 | likewise for DCP groups when the DCP size divides the block |
| Lockstep.ElasticListsAreLocal | fusion_patch/parallel_state.py:1560-1665 | the elastic TP, PCP, PP and DCP lists have as many rows as a block has groups and name only ranks of one block |
| Lockstep.TwoRanks | fusion_patch/parallel_state.py:1594-1736 | any two ranks of one configuration, static or elastic, issue the same sequence of collective calls, ask for the same stateless groups and register the same unique names |
| NodeDiscovery.MovePreserves | fusion_patch/parallel_state.py:1998-2056 | every move of any rank keeps the handshake's invariant |
| NodeDiscovery.EveryoneReturnsTheFlags | fusion_patch/parallel_state.py:1988-2056 | in every run, on every rank and for both kinds of group, rank j is flagged exactly when the segment was created and j is on the source's node or on one whose namesake starts with the 13 characters magic_message |
| NodeDiscovery.RightIffNothingStale | fusion_patch/parallel_state.py:1965-1973 | the list is right for every rank if and only if no other node involved holds such a namesake |
| NodeDiscovery.NoOpenAfterUnlink | fusion_patch/parallel_state.py:1998-2042 | in every run nobody is yet to open the segment once it is unlinked, and on the source's node an opened segment carries the magic message |
| NodeDiscovery.OwnSlotOnly | fusion_patch/parallel_state.py:1988-2056 | no rank ever writes another rank's slot, and a broadcast tensor is already final |
| NodeDiscovery.RunBounded | fusion_patch/parallel_state.py:1988-2056 | no run has more than W * (8 + W) moves |
| NodeDiscovery.FinishedRunReturnsIff | fusion_patch/parallel_state.py:1998-2042 | a run with no move left has returned on every rank if and only if the segment could be created or the group has one rank |
| NodeDiscovery.NobodyReturnsWithoutSegment | fusion_patch/parallel_state.py:1998-2014 | without the segment every other rank waits for its name forever |
| NodeCount.BroadcastAndSum | fusion_patch/parallel_state.py:2051-2054 | the stateless loop of broadcasts and in-place additions leaves what one all-reduce would |
| NodeCount.SumRowsSnoc | fusion_patch/parallel_state.py:2051-2054 | that is slot by slot the sum over the ranks: nothing without ranks, and one rank's entry more for one rank more |
| NodeCount.ReturnedFlags | fusion_patch/parallel_state.py:2144 | whatever list any rank got from a handshake in any run is the list of flags, and among two ranks or more the segment was created |
| NodeCount.NodeCount | fusion_patch/parallel_state.py:2113-2149 | from the lists its rank got, the handshakes made are those of the ranks no earlier source flagged, the labels are the places of the first source flagging a rank, and the count is their number: functions of the handshakes alone, hence alike on every rank; it never exceeds the number of nodes and equals it if and only if nothing is stale |
| NodeCount.OneNodeOneLabel | fusion_patch/parallel_state.py:2145-2147 | two ranks of one node get the same label whatever the handshakes find, created segments or not |
| NodeCount.CountsNodesIff | fusion_patch/parallel_state.py:2113-2149 | where the handshakes that are made create their segments, the count never exceeds the number of nodes, and is that number if and only if no first rank's handshake meets a stale namesake on a node that shows up later |
| NodeCount.SameLabelIff | fusion_patch/parallel_state.py:2145-2147 | then labels agree exactly on ranks of one node |
| NodeCount.NamesakeMiscounts | fusion_patch/parallel_state.py:1965-1973 | two nodes of one rank each, the second with a namesake of rank 0's segment: every list returned flags both ranks and one node is counted |
| NodeCount.FirstRanksIff | fusion_patch/parallel_state.py:2134-2147 | the first ranks, which are the sources when nothing is stale, are those no lower rank shares a node with |
| NodeCount.FirstRanksCount | fusion_patch/parallel_state.py:2134-2149 | there is one such rank per node |
| Async.StepGood | repro/b70_allreduce_bench.cpp:51-70 | every host, element or signal step keeps the outcome: what is in flight plus the rest of the program still give the sequential result |
| Async.NoRace | repro/b70_allreduce_bench.cpp:51-70 | in no schedule of a well-synchronised program are two conflicting commands in flight at once |
| Async.ScheduleIndependent | repro/b70_allreduce_bench.cpp:51-70 | every finished schedule leaves the memory of running the commands one after the other |
| Async.NeverStuck | repro/b70_allreduce_bench.cpp:51-70 | the host never waits for an event nobody will signal |
| Async.ScheduleBounded | repro/b70_allreduce_bench.cpp:51-70 | no schedule has more than n + 2 steps per operation |
| Async.SecondMayFinishFirst | repro/b70_allreduce_bench.cpp:51-70 | of two commands in flight the second can finish and signal before the first has begun |
| Bench.BenchmarkSynchronised | repro/b70_allreduce_bench.cpp:49-75 | fill, any number of rounds over either path, and fetch keep the discipline, with the peer events reset before reuse |
| Bench.RoundSums | repro/b70_allreduce_bench.cpp:51-70 | one peer_ar or host_ar leaves on each device its own element plus the other's and changes nothing beyond N |
| Bench.PeerAvoidsHost | repro/b70_allreduce_bench.cpp:51-60 | the peer path leaves host memory alone |
| Bench.HostHoldsInputs | repro/b70_allreduce_bench.cpp:61-70 | the host path leaves both inputs in host memory |
| Bench.RoundsDouble | repro/b70_allreduce_bench.cpp:51-70 | after k rounds both devices hold the first sum doubled k - 1 times, for any commutative addition |
| Bench.BenchmarkResult | repro/b70_allreduce_bench.cpp:49-75 | whatever the schedule, that is what check fetches |
| Bench.ExactRounds | repro/b70_allreduce_bench.cpp:51-75 | over exact numbers it is 2^(k-1) times the sum |
| Bench.SingleRounds | repro/b70_allreduce_bench.cpp:49-97 | in binary32, from 1.0 and 2.0, it is exactly 3 * 2^(k-1) while k is at most 127 and infinity after; one round gives the 3.0 that check wants |
| Bench.CheckResult | repro/b70_allreduce_bench.cpp:72-75 | the comparison loop accepts exactly the buffers that hold the expected value everywhere |

## Left out

- torch, gloo, pickle, Level Zero and SYCL internals: their contracts are assumed (FIFO point-to-point messages, rank-ordered gathers, elementwise reduction in any order, barriers, collective group creation, events).
- Device residency of tensors handed to gloo: only the movement of data is modelled.
- A message whose length is not that of the receive it meets is taken to be an error at the receiver, as are parts of different lengths or element types in a gather; what a byte-wise transport makes of them is not modelled.
- BackToBack.SeriesCompletesIff: up to the handles of every call; the gathers deferred to postprocessing are those of Transfer, for one transfer over all lanes.
- The protocol loops of `isend_tensor_dict`, `irecv_tensor_dict` and `in_the_same_node_as` are step systems over values rather than methods, because their properties are about interleavings; handle lists are the posted receives of a lane.
- Collective tensor operations (reshape, movedim, cat) are functions on values; only the buffers the transport fills are arrays, so views and aliasing are not captured.
- `fusion_patch/xpu_communicator.py:223` passes a one-element list to a list-style gather, which torch's contract does not cover; the intended rank-ordered concatenation is modelled.
- UnevenGather.ScatterThenGather: where the two collectives may add in different orders at one position, over floating point their results may differ by rounding.
- AllReduce.StagedSumError: assumes a finite binary32 sum; NaN payloads and the sign of NaN are not modelled.
- Async.ScheduleIndependent: one element is processed atomically; NoRace is what makes that harmless.
- NodeDiscovery.EveryoneReturnsTheFlags: what other nodes hold under the announced name does not change during the handshake, and time-outs of collectives are not modelled.
- NodeCount.NodeCount: the handshakes it makes are taken to have returned; the flags themselves come from them.
- Lockstep.Process.InitializeModelParallel: what the stateless coordinator does with its requests, the decode default of the DCP size and the already-initialised assertions are left out.
- `XpuCommunicator.broadcast`, which passes its source untranslated.
- The custom CPU `send_tensor_dict` path, the message-queue broadcaster, all-to-all managers and `dispatch`/`combine`: not implemented here or no-ops.
- The blocking `send_tensor_dict` and `recv_tensor_dict`: they only wait for the handles of the modelled pair and run its postprocessing.
- The bypass of a group with one rank in `isend_tensor_dict` and `irecv_tensor_dict`.
- CUDA graph capture, streams, fused scaled-matmul wrappers, profiler, logging, environment reads and worker start-up.
- Bandwidth measurement, peer-to-peer probes, HTTP checks, container files and launch scripts.
