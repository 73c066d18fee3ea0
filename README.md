# A Dafny model of the JAGS core

JAGS ("Just Another Gibbs Sampler") compiles a BUGS model into a directed
graph of constant, logical, aggregate, link and stochastic nodes, then
updates the unobserved stochastic nodes by Markov chain Monte Carlo. It
uses a set of samplers that each claim the nodes they can handle. This
project models the discrete and structural logic around JAGS's numerics:

- the graph and its node kinds: membership, closure, the topological
  sort, aggregate-node flattening and closure classes, link and constant
  nodes;
- the front end: parse-tree discipline, the logical-node factory and its
  memo table, the R-dump data reader, the console helpers and the BUGS
  model's monitor registry and RNG checks;
- the samplers: slice-sampler interval bookkeeping and adaptation,
  enumeration over a finite support, the shifted multinomial, interval
  censoring, dsum candidacy and the sum-preserving random-walk steps, the
  layout of the coefficients of the conjugate multivariate normal
  sampler, the GLM factory's checks and the fixed-answer sampler classes;
- the validators and small evaluators of distributions and functions:
  dirichlet, multivariate normal and t, normal mixture, round, the
  truncation logic of scalar Rmath distributions, seq, sort, interp.lin,
  inprod, the comparison operators, the logdensity/p/d wrappers and the
  deviance trace monitor.

Each core source file is one Dafny module (one `.dfy` file). The model
keeps the source's form. Objects whose fields change are classes with
`modifies` frames. Loops are methods whose postconditions tie the result
to a specification function. Pure code is functions and lemmas.

The numerics are kept out of the model. Densities, distribution and
quantile functions, inverse links, `fround`, `lgamma`, `log`, `sqrt`,
BLAS/LAPACK and the like are function-valued parameters or datatype
fields. Random numbers come from `Rng.RNG`, a value holding fixed draw
streams and a draw counter, with the ranges every JAGS generator
guarantees. Nodes are integer handles into an arena, so a `std::set<Node*>`
is iterated in increasing handle order.

## Model

| member | source | states |
|---|---|---|
| GraphModel.Graph.constructor | src/lib/graph/Graph.cc:19-22 | A new graph has empty node and stochastic-node sets. |
| GraphModel.Graph.AddStochastic | src/lib/graph/Graph.cc:29-38 | A null node fails with invalid_argument and changes nothing; a node already present changes nothing; a new node joins both the node set and the stochastic-node set. |
| GraphModel.Graph.Add | src/lib/graph/Graph.cc:40-48 | A null node fails with invalid_argument; otherwise the node set gains the node and the stochastic-node set is unchanged. |
| GraphModel.Graph.RemoveStochastic | src/lib/graph/Graph.cc:50-56 | A member leaves both sets; removing a non-member changes nothing. |
| GraphModel.Graph.Remove | src/lib/graph/Graph.cc:58-63 | Only the node set loses the node; the stochastic-node set is unchanged. |
| GraphModel.Graph.Clear | src/lib/graph/Graph.cc:65-68 | The node set becomes empty and the stochastic-node set is left as it was. |
| GraphModel.Graph.IsClosed | src/lib/graph/Graph.cc:81-119 | Succeeds exactly when every member's parents and children are members, and then answers true (the `return false` lines are unreachable); otherwise it fails with a NodeError naming a member with a bad parent or a child outside the graph. |
| GraphModel.ChildInSet | src/lib/graph/Graph.cc:142-159 | True iff some stochastic or deterministic child of the node lies in S. |
| GraphModel.Sweep | src/lib/graph/Graph.cc:180-192 | One pass over the remaining set in handle order keeps the sort invariant; if it moved no node the remaining set is unchanged and stuck (every node with a child in it), otherwise it shrank. |
| GraphModel.PushKeepsState | src/lib/graph/Graph.cc:185-190 | Moving a node with no child left in the remaining set to the output keeps the output duplicate-free, keeps children before parents in it, and keeps output plus remaining set equal to the original S. |
| GraphModel.PushKeepsOrder | src/lib/graph/Graph.cc:185-190 | The node pushed last has no child still waiting, so every child in S of an output node was pushed before it. |
| GraphModel.PushKeepsDistinct | src/lib/graph/Graph.cc:187-190 | A node taken from the remaining set is not yet in the output, so the output stays duplicate-free. |
| GraphModel.Reverse | src/lib/graph/Graph.cc:200 | Element i of the result is element n-1-i of the input. |
| GraphModel.ReverseParentsFirst | src/lib/graph/Graph.cc:164-168 | Reversing an output in which children are pushed before their parents gives one in which every parent precedes its children. |
| GraphModel.RankedNeverStuck | src/lib/graph/Graph.cc:194-197 | In an acyclic graph (one with a rank that strictly decreases from parent to child) no non-empty node set is stuck, so the directed-cycle error cannot be raised. |
| GraphModel.SinkBelow | src/lib/graph/Graph.cc:194-197 | In an acyclic graph every non-empty set holds a node with no child in the set. |
| GraphModel.GetSortedNodes | src/lib/graph/Graph.cc:162-201 | A non-empty output vector is a logic_error with S untouched; on success S is consumed and the output holds each node of S exactly once, parents before children; a failure with an empty output vector leaves a non-empty stuck subset of S (a directed cycle). |
| GraphModel.Graph.GetSortedMembers | src/lib/graph/Graph.cc:203-207 | The const overload sorts a copy of the node set: the same guarantees as above over the members, with the membership unchanged. |
| AggNodes.SubParents | src/lib/graph/AggNode.cc:37-49 | Same length as the parents; an aggregate parent is replaced by its own parent at that offset, other parents are copied; when every aggregate parent is itself flat, no stored parent is an aggregate. |
| AggNodes.SubOffsets | src/lib/graph/AggNode.cc:51-64 | Same length as the offsets; the offset of an aggregate parent is replaced by that parent's own offset there, other offsets are copied. |
| AggNodes.SubsetOfSubset | src/lib/graph/AggNode.cc:19-35 | For X <- A[4:8] and Y <- X[3:4], Y's stored parents are A, A at offsets 5 and 6 (A's 6th and 7th elements). |
| AggNodes.CheckArguments | src/lib/graph/AggNode.cc:75-89 | A length mismatch between node, parents and offsets is exactly a length_error; otherwise a substituted offset beyond its parent's length is exactly an out_of_range; on success the substituted parents and offsets, with every offset inside its parent. |
| AggNodes.AllDiscrete | src/lib/graph/AggNode.cc:98-104 | The discreteness flag is true iff every stored parent is discrete-valued. |
| AggNodes.AggNode.Init | src/lib/graph/AggNode.cc:66-72 | Stores the dimension, length, chain count, parents, offsets, flags and data it is given. |
| AggNodes.AggNode.Create | src/lib/graph/AggNode.cc:66-113 | Fails exactly when the argument checks fail, with their error; on success the node stores the substituted parents and offsets, is discrete iff every stored parent is, and, when all parents are fixed, holds every chain's gathered value. |
| AggNodes.AggNode.SampleAll | src/lib/graph/AggNode.cc:106-111 | Every chain's value becomes its gathered value. |
| AggNodes.AggNode.Gathered | src/lib/graph/AggNode.cc:92-96 | The chain value that the parent-value pointers select has the node's length. |
| AggNodes.AggNode.DeterministicSample | src/lib/graph/AggNode.cc:119-125 | Element i of chain ch becomes element offsets[i] of stored parent i's chain-ch value; every other chain is unchanged. |
| AggNodes.AggNode.IsDiscreteValued | src/lib/graph/AggNode.cc:223-226 | True iff every stored parent is discrete-valued. |
| AggNodes.AggNode.IsClosed | src/lib/graph/AggNode.cc:148-202 | Equals the closure specification: ADDITIVE as below; SCALE iff every parent is an ancestor; SCALE_MIX iff the first parent is an ancestor and all parents equal it; LINEAR always; POWER never. |
| AggNodes.AggNode.IsAdditiveClosed | src/lib/graph/AggNode.cc:153-178 | The ADDITIVE answer is the additive-closure specification. |
| AggNodes.AdditiveScan | src/lib/graph/AggNode.cc:157-176 | The scan answers true iff at most one distinct ancestor parent occurs, its offsets are distinct and cover every element, and, when fixed is requested, every other parent is fixed. |
| AggNodes.ScanStep | src/lib/graph/AggNode.cc:160-175 | A step that continues keeps the scan invariant for one more parent; a step that returns false has found a violation of additive closure. |
| AggNodes.ScanVerdict | src/lib/graph/AggNode.cc:176 | After the last parent, "every mask entry is set" is exactly additive closure. |
| AggNodes.SecondAncestor | src/lib/graph/AggNode.cc:166-167 | Two different ancestor parents break additive closure. |
| AggNodes.RepeatedOffset | src/lib/graph/AggNode.cc:168 | An ancestor element used twice breaks additive closure. |
| AggNodes.UsedOffsetsStep | src/lib/graph/AggNode.cc:170 | One more ancestor parent adds exactly its offset to the used offsets. |
| LinkNodes.LinkNode.Init | src/lib/graph/LinkNode.cc:21-24 | Stores the link function, chain count, parents and fixed flag. |
| LinkNodes.LinkNode.Dim | src/lib/graph/LinkNode.cc:23 | A link node is scalar. |
| LinkNodes.LinkNode.Create | src/lib/graph/LinkNode.cc:21-36 | Fails with runtime_error exactly when the first parent is not scalar; otherwise the node is fixed iff all its parents are, and a fixed node holds in every chain the inverse link of its parent's value. |
| LinkNodes.LinkNode.DeterministicSample | src/lib/graph/LinkNode.cc:38-41 | Only chain ch changes, to the inverse link of the parent's chain-ch value. |
| LinkNodes.LinkNode.Eta | src/lib/graph/LinkNode.cc:56-59 | The linear predictor is the parent's chain-ch value. |
| LinkNodes.LinkNode.Grad | src/lib/graph/LinkNode.cc:61-64 | The gradient is the link function's gradient at eta(ch). |
| LinkNodes.LinkNode.CheckParentValues | src/lib/graph/LinkNode.cc:43-46 | Every parent value is accepted. |
| ConstantNodes.ScalarConstant | src/include/graph/ConstantNode.h:28-32 | The scalar constructor gives a scalar node whose value is the given number, with the given chain count and observed flag. |
| ConstantNodes.SharedValue | src/include/graph/ConstantNode.h:8-14 | A constant node has no parents and one value shared by all chains. |
| ConstantNodes.RandomSampleIsNoOp | src/include/graph/ConstantNode.h:48-52 | randomSample leaves the node and the generator's state unchanged. |
| ConstantNodes.ConstantNodeContract | src/include/graph/ConstantNode.h:16-94 | Every constant node is fixed, accepts its parents' values and has depth zero; it is an observed random variable exactly when constructed as observed and never an unobserved one; logDensity, df and KL are zero; it is a constant and neither deterministic nor stochastic. |
| ParseTrees.ParseTree.constructor | src/lib/compiler/ParseTree.cc:11-15 | A fresh tree has the given class and line, no parameters, no parent, an empty name and value 0. |
| ParseTrees.ParseTree.SetName | src/lib/compiler/ParseTree.cc:28-40 | For P_VAR, P_COUNTER, P_FUNCTION, P_DENSITY, P_LINK and P_ARRAY the name is stored; every other class is a logic_error with the name unchanged; nothing else changes. |
| ParseTrees.ParseTree.GetName | src/lib/compiler/ParseTree.cc:62-74 | Succeeds exactly for the named classes, with the stored name; otherwise a logic_error. |
| ParseTrees.ParseTree.SetValue | src/lib/compiler/ParseTree.cc:42-50 | Only a P_VALUE tree stores the value; any other class is a logic_error with the value unchanged. |
| ParseTrees.ParseTree.GetValue | src/lib/compiler/ParseTree.cc:76-82 | Succeeds exactly for a P_VALUE tree, with the stored value; otherwise a logic_error. |
| ParseTrees.ParseTree.SetParameters | src/lib/compiler/ParseTree.cc:89-111 | A tree with parameters or a parent is refused with nothing changed; otherwise success iff no argument is the tree itself or an already-parented (or repeated) tree, and then the parameters are the given list with every non-null argument's parent set to this tree; a failure at argument k leaves the parameters empty but the arguments before k linked (not atomic); the single-parent discipline over all trees is kept; no name, value or parameter list of the tree or its arguments changes, nor the tree's own parent. |
| ParseTrees.OneParent | src/lib/compiler/ParseTree.cc:94-107 | Under the single-parent discipline no tree is a parameter of two different trees. |
| LogicalFactories.FunctionLtAsWrittenNotAsymmetric | src/lib/compiler/LogicalFactory.cc:25-37 | Under the comparison as written a scalar function and a link function are each "less" than the other, so it is not a strict weak order. |
| LogicalFactories.FunctionLtStrictTotal | src/lib/compiler/LogicalFactory.cc:25-37 | The corrected (lexicographic) function order is irreflexive, asymmetric, transitive and total. |
| LogicalFactories.PairLtLexicographic | src/lib/compiler/LogicalFactory.cc:39-52 | Comparing by function first and by parents only when neither function is less gives, under the corrected function order, the lexicographic order on (function, parents). |
| LogicalFactories.NewNode | src/lib/compiler/LogicalFactory.cc:54-104 | A scalar function fails with runtime_error exactly when two parents longer than 1 differ in length, gives a scalar logical node exactly when no parent is longer than 1, and a vectorised scalar node otherwise; a link function gives a link node iff every parent has length 1 and the first parent is scalar (the LinkNode constructor's check, src/lib/graph/LinkNode.cc lines 26-28), else runtime_error; then vector, then array functions give their node kinds, and anything else is invalid_argument. |
| LogicalFactories.ModelNodes.constructor | src/lib/compiler/LogicalFactory.cc:123 | The model starts with no nodes. |
| LogicalFactories.ModelNodes.AddNode | src/lib/compiler/LogicalFactory.cc:123 | Appends exactly one node and returns its position. |
| LogicalFactories.LogicalFactory.constructor | src/lib/compiler/LogicalFactory.cc:114-115 | The memo table starts empty. |
| LogicalFactories.LogicalFactory.GetNode | src/lib/compiler/LogicalFactory.cc:106-126 | A null function is invalid_argument; a key already recorded returns its node and changes neither the table nor the model; a new key that newNode accepts creates one node for that function and those parents, records it under the key and appends it to the model exactly once; a failure records nothing. |
| ReadData.FirstPass | src/terminal/ReadData.cc:28-55 | The first pass succeeds iff every entry from i on is a ".RNG.name" assignment of exactly one variable or an array. |
| ReadData.FirstPassIndependent | src/terminal/ReadData.cc:28-55 | Whether the first pass succeeds does not depend on the generator name it starts with. |
| ReadData.FirstPassName | src/terminal/ReadData.cc:49 | When the pass succeeds, the generator name left is the right-hand side of the last ".RNG.name" assignment, or the given name when there is none. |
| ReadData.CheckEntries | src/terminal/ReadData.cc:27-55 | The first loop returns the first pass's verdict and generator name, stopping at the first bad entry before the table is touched. |
| ReadData.AcceptedDecodable | src/terminal/ReadData.cc:57-66 | Once the first pass succeeds on a well-formed list, every entry can be read as an array (the entry after an assignment is read whatever its class). |
| ReadData.Values | src/terminal/ReadData.cc:140-143 | The values of the data vector, one per parameter, in input order. |
| ReadData.ReadValues | src/terminal/ReadData.cc:139-143 | The loop copies the data vector's values in input order. |
| ReadData.ToCount | src/terminal/ReadData.cc:116 | The cast of a non-negative double to unsigned long truncates: n <= x < n + 1. |
| ReadData.VectorDims | src/terminal/ReadData.cc:108-118 | One dimension per entry of c(d1, ..., dn), each the truncation of its entry. |
| ReadData.ReadVectorDims | src/terminal/ReadData.cc:108-118 | Fails exactly when some entry is not positive; otherwise the truncated entries. |
| ReadData.RangeDims | src/terminal/ReadData.cc:89-99 | For a:b with 0 <= a < b, trunc(b - a + 1) dimensions (at least one), the i-th being trunc(a + i). |
| ReadData.ReadRangeDims | src/terminal/ReadData.cc:119-124 | The loop fills exactly the range dimensions. |
| ReadData.DimProduct | src/terminal/ReadData.cc:126-129 | The dimprod accumulator ends as the product of the dimensions. |
| ReadData.DecodeDim | src/terminal/ReadData.cc:81-134 | A decoded dimension always multiplies to the number of values. |
| ReadData.DecodeDimCases | src/terminal/ReadData.cc:86-133 | A vector attribute decodes iff every entry is positive and the product matches; a range a:b iff 0 <= a < b and the product matches; any other attribute class is refused. |
| ReadData.ReadDim | src/terminal/ReadData.cc:81-134 | The dimension-attribute code computes exactly the decoding above. |
| ReadData.DecodeArray | src/terminal/ReadData.cc:76-147 | A decoded array holds the data vector's values in input order, and its dimensions multiply to their number. |
| ReadData.DecodeArrayCases | src/terminal/ReadData.cc:135-137 | With no attribute the array is one-dimensional with as many elements as values; with one it decodes exactly when its dimension does, to that dimension. |
| ReadData.ReadArray | src/terminal/ReadData.cc:76-147 | The body of the second loop decodes one entry exactly as specified. |
| ReadData.Decodes | src/terminal/ReadData.cc:57-153 | The decoding of every entry, entry by entry. |
| ReadData.Decoded | src/terminal/ReadData.cc:57-66 | The entries the second pass decodes from i all lie at or after i. |
| ReadData.PassStep | src/terminal/ReadData.cc:60-74 | One step of the second pass: an assignment skips to the next entry, and a trailing one ends the pass successfully; the entry's name is removed from the table; a failing decode stops with false, a successful one binds the name and goes on. |
| ReadData.ReadEntry | src/terminal/ReadData.cc:57-153 | One turn of the second loop advances and either stops with the pass's result or leaves the remaining pass's result unchanged. |
| ReadData.ReadEntries | src/terminal/ReadData.cc:57-153 | The second loop returns exactly the second pass's verdict and table. |
| ReadData.SecondPassFrame | src/terminal/ReadData.cc:70-74 | A name no decoded entry uses keeps its binding (or absence), whether or not the pass succeeds. |
| ReadData.PassFrame | src/terminal/ReadData.cc:70-74 | The same frame property over any precomputed decoding. |
| ReadData.SecondPassLastWins | src/terminal/ReadData.cc:70-74 | On success each name is bound to the array of the last decoded entry with that name: a later entry replaces an earlier one. |
| ReadData.PassLastWins | src/terminal/ReadData.cc:152 | The same last-wins property over any precomputed decoding. |
| ReadData.ReadRDataSpec | src/terminal/ReadData.cc:23-55 | When the first pass fails the result is false with the table untouched. |
| ReadData.ReadRData | src/terminal/ReadData.cc:23-166 | readRData returns the first pass's failure with the table untouched, or the second pass's verdict and table, and the generator name of the last ".RNG.name" assignment. |
| Console.GetVariableNames | src/lib/Console.cc:115-155 | The names and name set after the walk are those obtained by appending, once each, the variable names met in walk order (null parameters skipped, a for-loop's range before its counter is pushed, its body with it pushed, enclosing counters' names left out); the counter stack is restored. |
| Console.AppendNewDistinct | src/lib/Console.cc:123-131 | When the set holds exactly the list's names, appending never repeats a name, keeps the old list as a prefix, and leaves the set equal to the list's names: the old ones plus those met. |
| Console.AppendNewConcat | src/lib/Console.cc:133-154 | Appending the names of two walks in turn is appending the names of their concatenation. |
| Console.OccParamsSnoc | src/lib/Console.cc:134-154 | The names met over the first i+1 parameters are those over the first i followed by those of parameter i. |
| Console.OccRootsSnoc | src/lib/Console.cc:142-145 | The names met over the first i+1 range expressions are those over the first i followed by those of expression i. |
| Console.SetActive | src/lib/Console.cc:738-778 | Every entry with the name takes the flag, every other entry is unchanged, the list keeps its length, and the answer is true iff some entry matched. |
| Console.Factories.constructor | src/lib/Console.cc:850-854 | The three registries are those given, no generator is seeded and the recorded seed is 0. |
| Console.Factories.SetFactoryActive | src/lib/Console.cc:780-795 | The registry of the given type is updated as by set*Active, with the same answer; the other registries and the seeds are unchanged. |
| Console.Factories.ListFactories | src/lib/Console.cc:797-848 | The (name, flag) pairs of the registry of that type, in registry order. |
| Console.Factories.SetRNGSeed | src/lib/Console.cc:856-867 | Seed 0 changes nothing; any other seed seeds every generator factory and is recorded; the registries are unchanged. |
| Console.CompileCheck | src/lib/Console.cc:209-212 | compile goes on iff nchain > 0. |
| Console.SetParametersChain | src/lib/Console.cc:347-357 | setParameters goes on iff there is a model and 1 <= chain <= nchain, and then passes chain - 1 to the model. |
| Console.DumpStateCheck | src/lib/Console.cc:476-489 | dumpState goes on iff there is a model, the symbol table is non-empty and 1 <= chain <= nchain. |
| Console.ConsoleModel.constructor | src/lib/Console.cc:426 | Holds the model and its adapting flag. |
| Console.SetMonitor | src/lib/Console.cc:410-429 | No model or thin == 0 refuses, and thin == 0 changes nothing; otherwise adaptation is switched off first and the answer is true iff the key is new and some enabled factory produces a monitor. |
| BUGSModels.FactoryScan | src/lib/model/BUGSModel.cc:191-200 | The scan ends with no monitor and no message iff every enabled factory from j on answers neither. |
| BUGSModels.FactoryScanFirst | src/lib/model/BUGSModel.cc:192-199 | The first enabled factory that gives a monitor or a message decides the scan's result. |
| BUGSModels.BUGSModel.constructor | src/lib/model/BUGSModel.cc:175-177 | A new model has the given samplers and stochastic nodes and no monitors (the monitor lists are kept in step, with distinct keys). |
| BUGSModels.BUGSModel.SetMonitor | src/lib/model/BUGSModel.cc:175-210 | A key already registered answers false with the duplicate message and changes nothing; otherwise the answer and message are those of the factory scan, a monitor found is appended once to both monitor lists, and a failure records nothing; samplers and nodes are untouched. |
| BUGSModels.BUGSModel.DeleteMonitor | src/lib/model/BUGSModel.cc:212-227 | The answer is true iff some user monitor has the key; then the first such entry is removed from the user list and its monitor from the model's list; with no match nothing changes. |
| BUGSModels.RemoveMonitor | src/lib/model/BUGSModel.cc:220 | The model's list keeps exactly the entries of other monitors. |
| BUGSModels.SamplerRow | src/lib/model/BUGSModel.cc:236-243 | A row is the sampler's name followed by its nodes' names, in order. |
| BUGSModels.BUGSModel.SamplerNames | src/lib/model/BUGSModel.cc:229-246 | One row per sampler, in sampler order. |
| BUGSModels.FixedNodesMembers | src/lib/model/BUGSModel.cc:258-266 | Exactly the fixed nodes among the stochastic nodes are kept. |
| BUGSModels.FixedNodesAppend | src/lib/model/BUGSModel.cc:261-266 | The filter keeps the stochastic nodes' order: filtering a concatenation concatenates the filtered parts. |
| BUGSModels.FixedNodes | src/lib/model/BUGSModel.cc:258-266 | The filtered list is no longer than the stochastic nodes. |
| BUGSModels.BUGSModel.ObservedStochasticNodes | src/lib/model/BUGSModel.cc:248-269 | The member vector and the result become the fixed stochastic nodes in stochastic-node order; monitors and samplers are untouched. |
| BUGSModels.IntState | src/lib/model/BUGSModel.cc:162-167 | The state vector is the truncating int cast of each value, in order. |
| BUGSModels.RngParameters | src/lib/model/BUGSModel.cc:140-171 | Fails, always with runtime_error, exactly when ".RNG.seed" is present without a generator, without exactly one value, or with a negative value, or ".RNG.state" is present without a generator or with a state the generator refuses; on success the seed is the truncated value and the state the truncated values. |
| Slicers.Slicer.constructor | src/lib/sampler/Slicer.cc:15-20 | A new slicer stores width, step budget, limits and the current value, adapts, and starts with sumdiff 0 and iteration 0. |
| Slicers.InitialInterval | src/lib/sampler/Slicer.cc:43-46 | For a uniform draw in [0,1) the initial interval has R - L = width and L <= xold <= R. |
| Slicers.StepSplit | src/lib/sampler/Slicer.cc:53-56 | j = (int)(u max) and k = max - 1 - j; when max >= 1, 0 <= j < max and the two step budgets add up to max - 1. |
| Slicers.Slicer.StepLeft | src/lib/sampler/Slicer.cc:59-72 | The left end moves by at most j steps of the width, never below the lower limit, and never to the right unless clipped to the limit; no adaptation state changes. |
| Slicers.Slicer.StepRight | src/lib/sampler/Slicer.cc:74-87 | The right end moves by at most k steps of the width, never above the upper limit, and never to the left unless clipped; no adaptation state changes. |
| Slicers.TotalWidth | src/lib/sampler/Slicer.cc:55-87 | An interval of width w stepped out by j + k = max - 1 steps of w is at most max·w long. |
| Slicers.Slicer.StepOut | src/lib/sampler/Slicer.cc:43-87 | After stepping out lower <= L and R <= upper; when xold lies within the limits L <= xold <= R and, for max >= 1, R - L <= max·width. |
| Slicers.Slicer.Shrink | src/lib/sampler/Slicer.cc:89-109 | An accepted point is the node's value and has log density >= z - DBL_EPSILON; the interval only shrinks around xold and holds the accepted point; running out of fuel is reported. |
| Slicers.AddedDiff | src/lib/sampler/Slicer.cc:112 | Each adapted move adds iter·abs(xnew - xold), so sumdiff never decreases. |
| Slicers.AdaptedWidth | src/lib/sampler/Slicer.cc:114-116 | The width changes only once iter > 10, to 2·sumdiff/iter/(iter - 1), and stays non-negative. |
| Slicers.Slicer.Adapt | src/lib/sampler/Slicer.cc:111-117 | While adapting, sumdiff gains iter·abs(xnew - xold), iter grows by one and the width is adapted; after adaptOff nothing changes. |
| Slicers.Slicer.UpdateStep | src/lib/sampler/Slicer.cc:22-118 | A current log density of +inf changes nothing; -inf or -DBL_MAX is a NodeError with nothing changed; otherwise the new value has log density >= g0 - exponential draw - DBL_EPSILON, lies in the final interval, which lies within the limits, holds xold and is at most max·width long, and the adaptation state moves as specified. |
| Slicers.DoubledLength | src/lib/sampler/Slicer.cc:149-169 | One more doubling doubles the interval length. |
| Slicers.Slicer.DoubleOnce | src/lib/sampler/Slicer.cc:150-169 | One doubling step either leaves both ends or doubles R - L on one side, keeping the old interval inside. |
| Slicers.Slicer.Doubling | src/lib/sampler/Slicer.cc:147-172 | At most max doublings, the interval is width·2^d long and still holds xold. |
| Slicers.HalvedUnits | src/lib/sampler/Slicer.cc:211-220 | Halving an interval longer than 1.1·width lowers its whole number of 1.1·width units, so accept's loop terminates. |
| Slicers.Slicer.Accept | src/lib/sampler/Slicer.cc:206-229 | The halved interval keeps xnew; d records exactly that a halving separated xold from xnew; true means the interval has halved to at most 1.1·width, false means d was set and both current ends have log density below z. |
| Slicers.Slicer.ShrinkDouble | src/lib/sampler/Slicer.cc:174-195 | An accepted point is the node's value, lies in the doubled interval and has log density >= z; running out of fuel is reported. |
| Slicers.Slicer.UpdateDouble | src/lib/sampler/Slicer.cc:120-204 | +inf or DBL_MAX changes nothing; -inf or -DBL_MAX is a NodeError; otherwise the new value has log density >= g0 - exponential draw, lies in an interval of length width·2^d with d <= max that holds xold, and the adaptation state moves as specified. |
| Slicers.Slicer.AdaptOff | src/lib/sampler/Slicer.cc:231-235 | Adaptation stops, the answer is true, and width, sumdiff and iter are unchanged. |
| FiniteMethods.CanSample | src/modules/basesamplers/FiniteMethod.cc:72-104 | True iff the node is discrete-valued, scalar, has df != 0 and fixed support, and in every chain both limits are finite with 1 < upper - lower + 1 <= 20. |
| FiniteMethods.FiniteMethod.Init | src/modules/basesamplers/FiniteMethod.cc:22-33 | Stores the integer bounds, the node and its likelihood. |
| FiniteMethods.FiniteMethod.Create | src/modules/basesamplers/FiniteMethod.cc:22-33 | Fails with logic_error exactly when canSample fails; otherwise the bounds are chain 0's limits cast to int, with lower <= upper. |
| FiniteMethods.FiniteMethod.Likelihoods | src/modules/basesamplers/FiniteMethod.cc:37-45 | One likelihood per integer in lower..upper. |
| FiniteMethods.FiniteMethod.LikelihoodAt | src/modules/basesamplers/FiniteMethod.cc:41-43 | Entry k is the likelihood at lower + k. |
| FiniteMethods.FiniteMethod.WeightsNonNegative | src/modules/basesamplers/FiniteMethod.cc:43 | Likelihoods that are exp of a log density are never negative. |
| FiniteMethods.FiniteMethod.Evaluate | src/modules/basesamplers/FiniteMethod.cc:37-45 | The first loop evaluates the likelihood at each of lower..upper exactly once, in order, and accumulates their sum. |
| FiniteMethods.Select | src/modules/basesamplers/FiniteMethod.cc:53-61 | The loop returns the first i < size - 1 whose running sum exceeds the target, or size - 1. |
| FiniteMethods.TargetBelow | src/modules/basesamplers/FiniteMethod.cc:53 | A uniform draw in [0,1) times a positive sum lies in [0, sum). |
| FiniteMethods.TargetOf | src/modules/basesamplers/FiniteMethod.cc:53 | The target is the uniform draw times the sum the loop accumulated. |
| FiniteMethods.ChoicePositive | src/modules/basesamplers/FiniteMethod.cc:53-61 | With a finite, non-zero sum of non-negative likelihoods the chosen entry has positive likelihood. |
| FiniteMethods.DrawFacts | src/modules/basesamplers/FiniteMethod.cc:47-61 | Past the normalisation check every likelihood is finite and the chosen one is positive. |
| FiniteMethods.Draw | src/modules/basesamplers/FiniteMethod.cc:52-61 | Uses one uniform draw; the index is the cumulative-sum choice for u·liksum, lies below size and has positive likelihood. |
| FiniteMethods.FiniteMethod.Update | src/modules/basesamplers/FiniteMethod.cc:35-65 | Fails with NodeError, without drawing, exactly when the likelihoods sum to 0 or to a non-finite value; otherwise the new value is lower plus the chosen index, so it lies in [lower, upper] and has positive likelihood. |
| FiniteMethods.FiniteMethod.AdaptOff | src/modules/basesamplers/FiniteMethod.cc:67-70 | adaptOff answers true and changes nothing. |
| ShiftedMultinomials.Zeros | src/modules/bugs/samplers/ShiftedMultinomial.cc:71 | The zero vector of length m. |
| ShiftedMultinomials.Unit | src/modules/bugs/samplers/ShiftedMultinomial.cc:81-103 | The unit vector e_i of length m. |
| ShiftedMultinomials.GraphView.constructor | src/modules/bugs/samplers/ShiftedMultinomial.cc:60-65 | The view holds the chain values and the size, value and probability parameters of the node and its children. |
| ShiftedMultinomials.GraphView.ScanZero | src/modules/bugs/samplers/ShiftedMultinomial.cc:71-78 | With the node at zero, true iff every child's size is zero. |
| ShiftedMultinomials.GraphView.ScanUnit | src/modules/bugs/samplers/ShiftedMultinomial.cc:80-103 | With the node at e_i, fails iff some child's size exceeds one; otherwise yields the last child of size one, since found_index is reset for every child. |
| ShiftedMultinomials.GraphView.LastUnit | src/modules/bugs/samplers/ShiftedMultinomial.cc:83-101 | ULONG_MAX or a child whose size at e_i is one, with no later child of size one. |
| ShiftedMultinomials.GraphView.MakeIndex | src/modules/bugs/samplers/ShiftedMultinomial.cc:60-110 | The result is the index specification for the chain, and the node's value is the same as before on every return path. |
| ShiftedMultinomials.IndexShape | src/modules/bugs/samplers/ShiftedMultinomial.cc:63-64 | The index is empty, or has one entry per element, each a child index below J or ULONG_MAX. |
| ShiftedMultinomials.IndexLastWins | src/modules/bugs/samplers/ShiftedMultinomial.cc:84-100 | The child recorded for element i has size one at e_i and is the last that does: the duplicate branch never fires. |
| ShiftedMultinomials.GraphView.ScanUnitIntended | src/modules/bugs/samplers/ShiftedMultinomial.cc:80-103 | With found_index declared before the child loop: succeeds iff no child's size at e_i exceeds one and at most one child has size one, and then yields that child or ULONG_MAX. |
| ShiftedMultinomials.GraphView.MakeIndexIntended | src/modules/bugs/samplers/ShiftedMultinomial.cc:60-110 | makeIndex with the duplicate test in force computes the corrected index specification, and the node's value is the same as before on every return path. |
| ShiftedMultinomials.IndexIntendedOnlyChild | src/modules/bugs/samplers/ShiftedMultinomial.cc:91-100 | A non-empty corrected index records for each element the only child of size one at e_i, or ULONG_MAX when no child has size one there. |
| ShiftedMultinomials.IndexIntendedAgrees | src/modules/bugs/samplers/ShiftedMultinomial.cc:80-103 | Wherever the corrected index is non-empty, the index as written is the same. |
| ShiftedMultinomials.TwoUnitChildrenDiffer | src/modules/bugs/samplers/ShiftedMultinomial.cc:84-100 | A one-element node with two children both of size X[0]: as written the index is [1], while the corrected index is empty. |
| ShiftedMultinomials.CanSample | src/modules/bugs/samplers/ShiftedMultinomial.cc:118-158 | True iff the node is an unbounded multinomial, all stochastic children are unbounded binomials whose probability does not depend on the node, the deterministic children are linear, and the corrected chain-0 index is non-empty and equal to every other chain's; the node's values are unchanged. |
| ShiftedMultinomials.ShiftedMultinomial.constructor | src/modules/bugs/samplers/ShiftedMultinomial.cc:112-116 | The corrected index is computed once, for chain 0, and the values are unchanged. |
| ShiftedMultinomials.Observed | src/modules/bugs/samplers/ShiftedMultinomial.cc:174-178 | y has one entry per element (the attached child's value, or 0). |
| ShiftedMultinomials.Thinned | src/modules/bugs/samplers/ShiftedMultinomial.cc:179-180 | One thinned probability per element. |
| ShiftedMultinomials.TakeObserved | src/modules/bugs/samplers/ShiftedMultinomial.cc:174-182 | y holds the attached children's values (0 where none), N loses their sum, and each attached element's probability is scaled by (1 - pi). |
| ShiftedMultinomials.SumOf | src/modules/bugs/samplers/ShiftedMultinomial.cc:185-188 | sump is the sum of the thinned probabilities. |
| ShiftedMultinomials.Binomials | src/modules/bugs/samplers/ShiftedMultinomial.cc:190-201 | One draw per remaining element. |
| ShiftedMultinomials.BinomialStep | src/modules/bugs/samplers/ShiftedMultinomial.cc:192-199 | One element of the series: its draw followed by the series from the next element. |
| ShiftedMultinomials.DrawBinomials | src/modules/bugs/samplers/ShiftedMultinomial.cc:190-201 | The loop produces exactly the binomial series and the generator state after it. |
| ShiftedMultinomials.DrawsShift | src/modules/bugs/samplers/ShiftedMultinomial.cc:191-199 | Moving one draw from the series onto the values drawn before it keeps their concatenation. |
| ShiftedMultinomials.BinomialsSum | src/modules/bugs/samplers/ShiftedMultinomial.cc:190-201 | The series sums to the size N whatever the generator returns, because the last element takes what is left. |
| ShiftedMultinomials.BinomialsNonNegative | src/modules/bugs/samplers/ShiftedMultinomial.cc:196 | With binomial draws in [0, N] and N >= 0 no element is negative. |
| ShiftedMultinomials.BinomialsZero | src/modules/bugs/samplers/ShiftedMultinomial.cc:192-194 | Once N reaches 0 every later element is 0 and no draw is taken. |
| ShiftedMultinomials.Plus | src/modules/bugs/samplers/ShiftedMultinomial.cc:204-206 | Elementwise sum of two vectors. |
| ShiftedMultinomials.PlusSum | src/modules/bugs/samplers/ShiftedMultinomial.cc:204-206 | The sum of an elementwise sum is the sum of the sums. |
| ShiftedMultinomials.AddBack | src/modules/bugs/samplers/ShiftedMultinomial.cc:204-206 | The shift loop adds y elementwise. |
| ShiftedMultinomials.UpdateSpec | src/modules/bugs/samplers/ShiftedMultinomial.cc:161-210 | The new value has one entry per element. |
| ShiftedMultinomials.UpdateSpecOf | src/modules/bugs/samplers/ShiftedMultinomial.cc:168-206 | The new value is the binomial series over the thinned probabilities with N less the children's values, shifted back by those values. |
| ShiftedMultinomials.Sample | src/modules/bugs/samplers/ShiftedMultinomial.cc:163-206 | The body of update computes exactly the specified new value and generator state. |
| ShiftedMultinomials.UpdateSumsToSize | src/modules/bugs/samplers/ShiftedMultinomial.cc:163-206 | The new value always sums to the multinomial size N: the shift undoes the subtraction. |
| ShiftedMultinomials.UpdateAboveObserved | src/modules/bugs/samplers/ShiftedMultinomial.cc:174-206 | With a valid generator and child values not exceeding N, every element is at least its child's value. |
| ShiftedMultinomials.ShiftedMultinomial.Update | src/modules/bugs/samplers/ShiftedMultinomial.cc:161-210 | Only chain ch's value changes, to the specified new value, and the generator moves as the draws say. |
| CensoredSamplers.CanSample | src/modules/bugs/samplers/Censored.cc:44-79 | True iff the node is continuous and scalar, its distribution can be bounded but the node is not bounded, and it has exactly one stochastic child, no deterministic children, that child is "dinterval" and its breaks parent is not the node. |
| CensoredSamplers.Censored.Init | src/modules/bugs/samplers/Censored.cc:31-34 | Stores the values, node, chain count, breaks and indicator oracles. |
| CensoredSamplers.Censored.Create | src/modules/bugs/samplers/Censored.cc:31-42 | Fails with a NodeError for the node exactly when some chain's indicator is below 0 or above the number of breaks. |
| CensoredSamplers.Censored.Index | src/modules/bugs/samplers/Censored.cc:83 | The cast indicator lies in 0..nbreaks. |
| CensoredSamplers.Bounds | src/modules/bugs/samplers/Censored.cc:83-88 | No lower bound exactly when y = 0, no upper bound exactly when y = nbreaks, and otherwise lower = b[y-1] and upper = b[y]. |
| CensoredSamplers.Indicator | src/modules/bugs/samplers/Censored.cc:83 | The dinterval indicator of t (the number of breaks at or below t) lies in 0..nbreaks. |
| CensoredSamplers.IndicatorPrefix | src/modules/bugs/samplers/Censored.cc:87-88 | With ascending breaks, the breaks below the indicator are <= t and the rest are > t. |
| CensoredSamplers.IndicatorOfSplit | src/modules/bugs/samplers/Censored.cc:87-88 | A prefix split of the breaks at t determines the indicator. |
| CensoredSamplers.BoundsMatchIndicator | src/modules/bugs/samplers/Censored.cc:83-90 | With ascending breaks, t lies within the bounds chosen for y iff y is t's dinterval indicator: the selected interval is exactly the censoring interval. |
| CensoredSamplers.Censored.Update | src/modules/bugs/samplers/Censored.cc:81-91 | Only chain ch's value changes, to the truncated sample between the bounds the indicator names. |
| DSumFactories.FirstDSum | src/modules/bugs/samplers/DSumFactory.cc:27-35 | None iff no node of the set is an observed "dsum" node; otherwise the least such node. |
| DSumFactories.GetDSumChild | src/modules/bugs/samplers/DSumFactory.cc:20-36 | None for a node that is not scalar or not discrete; otherwise the first observed dsum stochastic child. |
| DSumFactories.FindDSumChild | src/modules/bugs/samplers/DSumFactory.cc:20-36 | The loop over the stochastic children returns what GetDSumChild specifies. |
| DSumFactories.FirstDSumChild | src/modules/bugs/samplers/DSumFactory.cc:43-51 | None iff no node of the sample set has a dsum child; otherwise a child found from some node of the set. |
| DSumFactories.FindInSet | src/modules/bugs/samplers/DSumFactory.cc:43-51 | The search loop that breaks at the first node with a dsum child returns FirstDSumChild. |
| DSumFactories.CollectParameters | src/modules/bugs/samplers/DSumFactory.cc:59-71 | Succeeds iff every parent of the dsum node is in the sample set, and then the parameters are exactly the parents in order. |
| DSumFactories.MakeSampler | src/modules/bugs/samplers/DSumFactory.cc:39-84 | Returns what MakeSamplerSpec states: the null sampler when no dsum child, a parent outside the set or a failed canSample; otherwise a sampler of the parents with one method per chain. |
| DSumFactories.MakeSamplerSound | src/modules/bugs/samplers/DSumFactory.cc:39-84 | Every sampler built samples the parents, in order, of an observed dsum child of a scalar discrete node of the set; all of them are in the set, canSample accepts them, and there is one method per chain. |
| DSumFactories.MakeSamplerNoChild | src/modules/bugs/samplers/DSumFactory.cc:53-54 | No sampler is built when no node of the set has an observed dsum child. |
| RWDSums.ScaledIsProduct | src/modules/bugs/samplers/RealDSum.cc:22 | The repeated sum used for u * n is the product. |
| RWDSums.ScaledRange | src/modules/bugs/samplers/RealDSum.cc:22 | For a uniform u in [0, 1) and n >= 1, u * n lies in [0, n). |
| RWDSums.PickOf | src/modules/bugs/samplers/RealDSum.cc:23-25 | The pick for x is the least k with k + 1 >= x: either 0 or below x. |
| RWDSums.Pick | src/modules/bugs/samplers/RealDSum.cc:20-26 | The loop returns PickOf(u * n) for the generator's uniform draw, and advances the generator by one draw. |
| RWDSums.PickInRange | src/modules/bugs/samplers/RealDSum.cc:19-26 | For n >= 1 the pick is an integer in [0, n - 1]. |
| RWDSums.PickBelow | src/modules/bugs/samplers/RealDSum.cc:23-25 | For 0 <= x < n the pick is below n. |
| RWDSums.SumTransfer | src/modules/bugs/samplers/RealDSum.cc:44-47 | Adding e at one position and taking it away at another keeps the sum. |
| DMultiDSums.TwoPicksDistinct | src/modules/bugs/samplers/DMultiDSum.cc:40-48 | For n >= 2 the pick and the shifted second pick are distinct and both in [0, n - 1]. |
| DMultiDSums.Increment | src/modules/bugs/samplers/DMultiDSum.cc:50-51 | The increment is an integer of at least 1. |
| DMultiDSums.ChooseWellChosen | src/modules/bugs/samplers/DMultiDSum.cc:40-51 | For a matrix of at least 2 x 2, step picks two distinct rows, two distinct columns and an integer increment of at least 1. |
| DMultiDSums.PickTwo | src/modules/bugs/samplers/DMultiDSum.cc:41-43 | pick(n), then pick(n - 1) moved past the first pick. |
| DMultiDSums.DrawIncrement | src/modules/bugs/samplers/DMultiDSum.cc:50-51 | The increment comes from one normal draw scaled by s. |
| DMultiDSums.Choose | src/modules/bugs/samplers/DMultiDSum.cc:40-51 | The four picks and the normal draw, in the source's order, for any matrix of at least 1 x 1. |
| DMultiDSums.CornersInside | src/modules/bugs/samplers/DMultiDSum.cc:55-58 | Rows and columns in range put all four corners inside the value. |
| DMultiDSums.OneRowSecondRow | src/modules/bugs/samplers/DMultiDSum.cc:28-43 | With one row, the second row is pick(0) = 0 moved past row 0: row 1, one past the last row. |
| DMultiDSums.OneColumnOutside | src/modules/bugs/samplers/DMultiDSum.cc:46-58 | With one column the second column is 1 and corner (r2, c2) lies past the end of the value, for every draw. |
| DMultiDSums.CornersDistinct | src/modules/bugs/samplers/DMultiDSum.cc:55-58 | The four corners' positions are in range and pairwise distinct. |
| DMultiDSums.Apply | src/modules/bugs/samplers/DMultiDSum.cc:55-58 | The value array afterwards is the exchange of inc around the four corners. |
| DMultiDSums.Step | src/modules/bugs/samplers/DMultiDSum.cc:36-59 | step accepts any matrix of at least 1 x 1; it writes exactly when the four corners lie inside the value, changing it by exactly the exchange, and otherwise leaves it unchanged (the source's out-of-range write); a matrix of at least 2 x 2 is always written with a well-formed choice. |
| DMultiDSums.ExchangeCells | src/modules/bugs/samplers/DMultiDSum.cc:53-58 | Exactly the four chosen cells change, by +inc or -inc; every other cell keeps its value. |
| DMultiDSums.SumShifted | src/modules/bugs/samplers/DMultiDSum.cc:53-58 | Moving e from one element to another keeps the sum. |
| DMultiDSums.ExchangeKeepsRowSums | src/modules/bugs/samplers/DMultiDSum.cc:53-58 | step keeps every row sum. |
| DMultiDSums.ExchangeKeepsColSums | src/modules/bugs/samplers/DMultiDSum.cc:53-58 | step keeps every column sum. |
| DMultiDSums.OneRowColumnGain | src/modules/bugs/samplers/DMultiDSum.cc:55-58 | With one row, the first chosen column gains inc (2 * inc when the second column is just before it). |
| DMultiDSums.OneRowBreaksColumnSum | src/modules/bugs/samplers/DMultiDSum.cc:36-59 | With one row, every step whose writes stay inside the value changes the sum of its first chosen column. |
| RealDSums.ChooseWellChosen | src/modules/bugs/samplers/RealDSum.cc:36-45 | For at least one row and two columns, step picks a row in range and two distinct columns in range. |
| RealDSums.Choose | src/modules/bugs/samplers/RealDSum.cc:36-45 | The row pick, the two column picks and the scaled normal draw, in the source's order of draws, for any number of rows and at least one column. |
| RealDSums.CellsInside | src/modules/bugs/samplers/RealDSum.cc:46-47 | A row and columns in range put both cells inside the value. |
| RealDSums.OneColumnOutside | src/modules/bugs/samplers/RealDSum.cc:40-47 | With one column the second column is 1 and cell (r, c2) lies past the end of the value, for every draw. |
| RealDSums.CellsDistinct | src/modules/bugs/samplers/RealDSum.cc:46-47 | The two cells step changes are in range and distinct. |
| RealDSums.Apply | src/modules/bugs/samplers/RealDSum.cc:46-47 | The value array afterwards is the transfer of eps from (r, c2) to (r, c1). |
| RealDSums.Step | src/modules/bugs/samplers/RealDSum.cc:33-48 | step accepts any shape with at least one column; it writes exactly when both cells lie inside the value, changing it by exactly the transfer, and otherwise leaves it unchanged (the source's out-of-range write); one row and two columns or more are always written with a well-formed choice. |
| RealDSums.TransferCells | src/modules/bugs/samplers/RealDSum.cc:44-47 | Only cells (r, c1) and (r, c2) change, by +eps and -eps. |
| RealDSums.TransferKeepsRowSums | src/modules/bugs/samplers/RealDSum.cc:44-47 | step keeps every row sum, as the comment promises. |
| RealDSums.TransferKeepsTotal | src/modules/bugs/samplers/RealDSum.cc:44-47 | step keeps the sum of all elements. |
| RealDSums.TotalOfTransfer | src/modules/bugs/samplers/RealDSum.cc:44-47 | The same, for a named result of the transfer. |
| RealDSums.TransferUpdates | src/modules/bugs/samplers/RealDSum.cc:46-47 | The transfer is the two point updates of the source. |
| ConjugateMNormals.BlockStartMonotone | src/modules/bugs/samplers/ConjugateMNormal.cc:50-60 | The block offsets of the betas never decrease from child to child. |
| ConjugateMNormals.PosInBlock | src/modules/bugs/samplers/ConjugateMNormal.cc:55-60 | Coefficient (j, k, i), stored at beta_j[nrow * k + i], lies inside child j's block. |
| ConjugateMNormals.DecodeFrom | src/modules/bugs/samplers/ConjugateMNormal.cc:50-60 | Every position from block j on holds exactly one coefficient triple in range. |
| ConjugateMNormals.DecodeInBlock | src/modules/bugs/samplers/ConjugateMNormal.cc:55-58 | An offset within a block splits into a row in range and a child element in range. |
| ConjugateMNormals.Decode | src/modules/bugs/samplers/ConjugateMNormal.cc:50-60 | Every position of the betas holds a coefficient triple in range. |
| ConjugateMNormals.PosInjective | src/modules/bugs/samplers/ConjugateMNormal.cc:50-60 | Distinct triples are stored at distinct positions. |
| ConjugateMNormals.DecodePos | src/modules/bugs/samplers/ConjugateMNormal.cc:50-60 | Decoding the position of a triple gives the triple back. |
| ConjugateMNormals.BlockStartIsProduct | src/modules/bugs/samplers/ConjugateMNormal.cc:97 | The blocks together have (sum of the children's lengths) * nrow entries, the size _length_betas gives. |
| ConjugateMNormals.SumChildrenLength | src/modules/bugs/samplers/ConjugateMNormal.cc:83-93 | The loop adds up the lengths of all stochastic children. |
| ConjugateMNormals.AddUnit | src/modules/bugs/samplers/ConjugateMNormal.cc:63-64 | x + e_i: element i grows by one and every other element is unchanged. |
| ConjugateMNormals.Betas | src/modules/bugs/samplers/ConjugateMNormal.cc:34-81 | The coefficient table has one entry per stored position. |
| ConjugateMNormals.BetasEntry | src/modules/bugs/samplers/ConjugateMNormal.cc:56-72 | Entry nrow * k + i of child j's block is the change in mu_j[k] when x[i] grows by one. |
| ConjugateMNormals.BetasLayout | src/modules/bugs/samplers/ConjugateMNormal.cc:50-60 | One block per child, of length nrow_child * nrow, and nothing else. |
| ConjugateMNormals.MNormalView.constructor | src/modules/bugs/samplers/ConjugateMNormal.cc:37-54 | The view holds the node values per chain, the node's length, the children's lengths and their means. |
| ConjugateMNormals.InitBetas | src/modules/bugs/samplers/ConjugateMNormal.cc:50-61 | Stage one of calBeta: every entry of child j's block holds -mu_j[k] at the current value. |
| ConjugateMNormals.InitBlock | src/modules/bugs/samplers/ConjugateMNormal.cc:52-60 | The block of child j gets its stage-one entries, and the earlier blocks keep theirs. |
| ConjugateMNormals.InitRow | src/modules/bugs/samplers/ConjugateMNormal.cc:56-58 | The entries for element k of child j get their stage-one values. |
| ConjugateMNormals.CalBeta | src/modules/bugs/samplers/ConjugateMNormal.cc:34-81 | calBeta fills the betas with exactly the coefficient table at the node's value and leaves the node's value as it found it. |
| ConjugateMNormals.AddColumn | src/modules/bugs/samplers/ConjugateMNormal.cc:63-77 | Stage two for column i completes the entries of column i of every block and leaves the later columns at stage one. |
| ConjugateMNormals.AddChild | src/modules/bugs/samplers/ConjugateMNormal.cc:67-75 | Stage two for column i and child j completes that child's entries of column i. |
| ConjugateMNormals.CanSample | src/modules/bugs/samplers/ConjugateMNormal.cc:111-140 | canSample is true exactly when the node is an unbounded multivariate normal, every stochastic child is an unbounded normal or multivariate normal whose precision does not depend on the node, and the deterministic descendants are linear. |
| ConjugateMNormals.PriorB | src/modules/bugs/samplers/ConjugateMNormal.cc:165-170 | The prior part of b has one entry per element of the node. |
| ConjugateMNormals.SumZeros | src/modules/bugs/samplers/ConjugateMNormal.cc:165-170 | A sum of zeros is zero. |
| ConjugateMNormals.PriorBAtMean | src/modules/bugs/samplers/ConjugateMNormal.cc:155-170 | When the node sits at its prior mean, b is zero: the prior pulls it nowhere. |
| ConjugateMNormals.SetUp | src/modules/bugs/samplers/ConjugateMNormal.cc:162-173 | A is a copy of the prior precision and b is the prior precision times (prior mean - xold). |
| ConjugateMNormals.RowSum | src/modules/bugs/samplers/ConjugateMNormal.cc:166-169 | b[i] is the sum over i2 of priorprec[i * nrow + i2] * (priormean[i2] - xold[i2]). |
| ConjugateMNormals.ConjugateMNormal.constructor | src/modules/bugs/samplers/ConjugateMNormal.cc:95-104 | _length_betas is the children's total length times nrow; the betas are computed from chain 0 exactly when there are deterministic children and they are fixed linear, and the node's values are unchanged. |
| ConjugateMNormals.ConjugateMNormal.Posterior | src/modules/bugs/samplers/ConjugateMNormal.cc:142-330 | A failed solve is exactly the case with no new value; it is a NodeError for the node and draws nothing. A new value has the node's length. |
| ConjugateMNormals.ConjugateMNormal.Update | src/modules/bugs/samplers/ConjugateMNormal.cc:142-330 | update gives Posterior's outcome and generator; it writes the new value into chain ch only and leaves the other chains alone. |
| IWLSFactories.CheckOutcome | src/modules/glm/samplers/IWLSFactory.cc:16-27 | A normal outcome is accepted exactly without a link node, an unknown family never, and any other family exactly with one. |
| IWLSFactories.CheckOutcomeExactlyOne | src/modules/glm/samplers/IWLSFactory.cc:19-26 | A known family is accepted with exactly one of "link" and "no link", and the unknown family with neither. |
| IWLSFactories.CanSample | src/modules/glm/samplers/IWLSFactory.cc:37-45 | canSample is false for a bounded node and for an unobserved node with parents; otherwise it is true. |
| ImmutableSamplers.ImmutableSampler.constructor | src/lib/sampler/ImmutableSampler.cc:13-18 | The sampler keeps the method, the number of chains and the name it was given. |
| ImmutableSamplers.ImmutableSampler.Update | src/lib/sampler/ImmutableSampler.cc:25-28 | update is exactly one call of the method's update for the chain and the generator. |
| ImmutableSamplers.ImmutableSampler.AdaptOff | src/lib/sampler/ImmutableSampler.cc:35-37 | adaptOff changes nothing. |
| ImmutableSamplers.ImmutableSampler.Name | src/lib/sampler/ImmutableSampler.cc:44-47 | The name given at construction. |
| ImmutableSamplers.ImmutableSampler.IsAdaptive | src/lib/sampler/ImmutableSampler.cc:30-33 | An immutable sampler never adapts. |
| ImmutableSamplers.ImmutableSampler.CheckAdaptation | src/lib/sampler/ImmutableSampler.cc:39-42 | Its adaptation check always passes. |
| LessOrEqualOperator.EvaluateScalar | src/modules/basefunctions/LessOrEqual.cc:15-18 | The value is 0 or 1, and it is 1 iff the first argument is at most the second. |
| LessOrEqualOperator.IsTotalOrder | src/modules/basefunctions/LessOrEqual.cc:15-18 | The relation it decides is reflexive, antisymmetric and total. |
| NotEqualOperator.EvaluateScalar | src/modules/basefunctions/NotEqual.cc:15-18 | The value is 0 or 1, and it is 1 iff the arguments differ. |
| NotEqualOperator.ComplementOfEqual | src/modules/basefunctions/NotEqual.cc:15-18 | "!=" is symmetric, is 0 on equal arguments, and is one minus "==". |
| EqualOperator.EvaluateScalar | src/modules/base/functions/Equal.cc:15-18 | The value is 0 or 1, and it is 1 iff the arguments are equal. |
| EqualOperator.ReflexiveSymmetric | src/modules/base/functions/Equal.cc:15-18 | Exact equality is reflexive and symmetric. |
| EqualsFunction.Eval | src/modules/bugs/functions/Equals.cc:14-17 | The value is 0 or 1, and it is 1 iff the arguments are closer than 16 times the double-precision machine epsilon. |
| EqualsFunction.ReflexiveSymmetric | src/modules/bugs/functions/Equals.cc:14-17 | The tolerance test is reflexive and symmetric. |
| EqualsFunction.NotTransitive | src/modules/bugs/functions/Equals.cc:14-17 | The tolerance test is not transitive: there are three values whose neighbours pass but whose ends fail. |
| VectorFunctions.VectorFunction.constructor | src/lib/function/VectorFunction.cc:9-12 | Keeps the given name and number of parameters. |
| VectorFunctions.VectorFunction.CheckParameterLength | src/lib/function/VectorFunction.cc:21-28 | Accepts iff no argument is empty, so an empty argument list passes. |
| DensityMethods.DensityMethod.constructor | src/lib/sampler/DensityMethod.cc:4-7 | A new method has no sampler and chain 0. |
| DensityMethods.DensityMethod.SetData | src/lib/sampler/DensityMethod.cc:13-18 | Sets both the sampler and the chain to the given values. |
| DensityMethods.DensityMethod.Initialize | src/lib/sampler/DensityMethod.cc:20-23 | The default initialize leaves the sampler and the chain unchanged. |
| DistScalarRmaths.CalPlower | src/lib/distribution/DistScalarRmath.cc:19-29 | P(X < lower): the distribution function at lower - 1 for a discrete distribution and at lower otherwise. |
| DistScalarRmaths.CalPupper | src/lib/distribution/DistScalarRmath.cc:31-36 | P(X <= upper): the distribution function at upper. |
| DistScalarRmaths.LeTransitive | src/lib/distribution/DistScalarRmath.cc:19-36 | The order on extended doubles is transitive. |
| DistScalarRmaths.CalBoundsOrdered | src/lib/distribution/DistScalarRmath.cc:19-36 | For a non-decreasing distribution function and ordered bounds, the probability below the lower bound is at most the probability up to the upper bound. |
| DistScalarRmaths.Max | src/lib/distribution/DistScalarRmath.cc:55 | std::max: one of the two arguments, and the second when the first is smaller. |
| DistScalarRmaths.Min | src/lib/distribution/DistScalarRmath.cc:60 | std::min: one of the two arguments, and the second when it is smaller. |
| DistScalarRmaths.Limits | src/lib/distribution/DistScalarRmath.cc:50-62 | The support, with each bound that is present clipping its end. |
| DistScalarRmaths.LimitProbabilities | src/lib/distribution/DistScalarRmath.cc:52-62 | 0 and 1 for absent bounds; otherwise the probabilities of the clipped limits. |
| DistScalarRmaths.TypicalScalar | src/lib/distribution/DistScalarRmath.cc:46-83 | The quantile of the probability that the choice between the median and the two 10%-in points selects. |
| DistScalarRmaths.TypicalProbabilityInside | src/lib/distribution/DistScalarRmath.cc:64-82 | With finite ordered limit probabilities the chosen probability lies between them, and strictly inside when an end point is picked and the limits differ. |
| DistScalarRmaths.ChosenInside | src/lib/distribution/DistScalarRmath.cc:72-82 | Whatever the densities, the chosen probability lies between ordered finite limit probabilities. |
| DistScalarRmaths.CandidatesInside | src/lib/distribution/DistScalarRmath.cc:64-81 | The midpoint and the two 10%-in probabilities lie between a <= b, the latter two strictly when a < b. |
| DistScalarRmaths.TypicalUnboundedMedian | src/lib/distribution/DistScalarRmath.cc:50-82 | Without bounds the median is the quantile of one half, and the chosen probability is 0.5, 0.9 or 0.1. |
| DistScalarRmaths.ScalarLogLikelihood | src/lib/distribution/DistScalarRmath.cc:85-136 | The plain log density without bounds, and minus infinity outside the bounds or when they are the wrong way round. |
| DistScalarRmaths.LogLikelihoodIsTruncated | src/lib/distribution/DistScalarRmath.cc:102-133 | With exact tail probabilities, every branch inside the bounds gives the log density minus the log probability of the interval. |
| DistScalarRmaths.TruncatedBothTails | src/lib/distribution/DistScalarRmath.cc:115-126 | With probability in both tails, either formula is the log density minus the log of the interval's probability. |
| DistScalarRmaths.TruncatedLowerTail | src/lib/distribution/DistScalarRmath.cc:127-129 | With probability below the upper bound only, the log upper tail at ll is the log of the interval's probability. |
| DistScalarRmaths.TruncatedUpperTail | src/lib/distribution/DistScalarRmath.cc:130-132 | With probability above the lower bound only, the log lower tail at upper is the log of the interval's probability. |
| DistScalarRmaths.TruncatedWhole | src/lib/distribution/DistScalarRmath.cc:112-133 | When neither bound cuts off probability, the log density is kept, which is the log density minus log 1. |
| DistScalarRmaths.MassBothTails | src/lib/distribution/DistScalarRmath.cc:115-125 | With both bounds, both the upper-tail and the lower-tail difference equal the interval's probability. |
| DistScalarRmaths.MassLowerTail | src/lib/distribution/DistScalarRmath.cc:127-128 | When no upper tail is cut off, the upper tail above the lower bound is the interval's probability. |
| DistScalarRmaths.MassUpperTail | src/lib/distribution/DistScalarRmath.cc:130-131 | When no lower tail is cut off, the distribution function at the upper bound is the interval's probability. |
| DistScalarRmaths.MassWhole | src/lib/distribution/DistScalarRmath.cc:112-133 | When neither bound cuts off any probability, the interval holds all of it. |
| DistScalarRmaths.BoundProbabilities | src/lib/distribution/DistScalarRmath.cc:146-152 | 0 and 1 for absent bounds, otherwise CalPlower and CalPupper of the bounds. |
| DistScalarRmaths.ScalarRandomSample | src/lib/distribution/DistScalarRmath.cc:139-161 | Without bounds a plain draw; with bounds the quantile of a uniform point between the bound probabilities, using one uniform draw. |
| DistScalarRmaths.SampleProbabilityInside | src/lib/distribution/DistScalarRmath.cc:154 | The point inverted lies between ordered finite bound probabilities. |
| DDirchs.Df | src/modules/bugs/distributions/DDirch.cc:137-140 | One less than the length for an accepted length, and the unsigned wrap-around to the largest unsigned long for length 0. |
| DDirchs.CheckParameterValue | src/modules/bugs/distributions/DDirch.cc:46-63 | Accepts iff no alpha is negative and at least one is positive. |
| DDirchs.LogDensitySpec | src/modules/bugs/distributions/DDirch.cc:65-96 | Minus infinity whenever a structural zero is violated (alpha[i] = 0 but x[i] > 0). |
| DDirchs.LogDensity | src/modules/bugs/distributions/DDirch.cc:65-96 | The two loops and the PDF-type test compute LogDensitySpec: the kernel, plus the normalising constant unless only the prior part is wanted. |
| DDirchs.KernelLoop | src/modules/bugs/distributions/DDirch.cc:72-81 | Fails iff some structural zero is violated; otherwise gives the kernel, the sum of (alpha[i] - 1) log x[i] over the non-zero alpha. |
| DDirchs.PrefixStep | src/modules/bugs/distributions/DDirch.cc:73-81 | One more element takes one more kernel step, and a violation at that element is a violation of the whole vector. |
| DDirchs.SubtractLgammas | src/modules/bugs/distributions/DDirch.cc:85-91 | Subtracts lgamma(alpha[i]) for each non-zero alpha and adds up alpha. |
| DDirchs.KernelRemove | src/modules/bugs/distributions/DDirch.cc:74-80 | Dropping an element with alpha[i] = 0 leaves the kernel unchanged. |
| DDirchs.SubLgammasRemove | src/modules/bugs/distributions/DDirch.cc:86-91 | Dropping an element with alpha[i] = 0 leaves the lgamma corrections unchanged. |
| DDirchs.SumRemoveZero | src/modules/bugs/distributions/DDirch.cc:89 | Dropping a zero leaves the sum of alpha unchanged. |
| DDirchs.StructuralZeroIgnored | src/modules/bugs/distributions/DDirch.cc:65-96 | A structural zero that holds contributes nothing: dropping the element leaves the log density unchanged for every PDF type. |
| DDirchs.GammaDraws | src/modules/bugs/distributions/DDirch.cc:110-113 | One value per remaining element: 0, without a draw, for alpha = 0, and a gamma(alpha, 1) draw otherwise. |
| DDirchs.GammaDrawsSigns | src/modules/bugs/distributions/DDirch.cc:110-113 | With non-negative alpha every value is non-negative, and positive exactly where alpha is positive. |
| DDirchs.GammaStep | src/modules/bugs/distributions/DDirch.cc:111 | One value of the first loop, followed by the rest. |
| DDirchs.Normalised | src/modules/bugs/distributions/DDirch.cc:114-116 | x divided through by its sum keeps its length. |
| DDirchs.SumDivided | src/modules/bugs/distributions/DDirch.cc:114-116 | Dividing each element by c divides the sum by c. |
| DDirchs.NormalisedSumsToOne | src/modules/bugs/distributions/DDirch.cc:114-116 | A normalised vector sums to one. |
| DDirchs.GammaSumPositive | src/modules/bugs/distributions/DDirch.cc:109-113 | With valid alpha the sum that randomSample divides by is positive. |
| DDirchs.FillGammas | src/modules/bugs/distributions/DDirch.cc:109-113 | The first loop writes the gamma values into x and their sum into sumx. |
| DDirchs.DivideBy | src/modules/bugs/distributions/DDirch.cc:114-116 | The second loop normalises x by its sum. |
| DDirchs.RandomSample | src/modules/bugs/distributions/DDirch.cc:98-117 | The sample is the gamma values divided by their positive sum, and the generator advances past the draws. |
| DDirchs.Support | src/modules/bugs/distributions/DDirch.cc:119-130 | Every lower bound is 0; the upper bound is 0 at a structural zero and plus infinity elsewhere. |
| DDirchs.SampleInSupport | src/modules/bugs/distributions/DDirch.cc:98-130 | Every element of a random sample lies within its support. |
| DDirchs.DivideNonNegative | src/modules/bugs/distributions/DDirch.cc:115 | A non-negative value divided by a positive sum is non-negative, and 0 stays 0. |
| DDirchs.KLPrefixInfinite | src/modules/bugs/distributions/DDirch.cc:153-168 | The loop returns plus infinity iff some element has a1 != 0 and a2 = 0. |
| DDirchs.KLSpec | src/modules/bugs/distributions/DDirch.cc:142-172 | Plus infinity iff some component is a structural zero of the second distribution but not of the first. |
| DDirchs.KL | src/modules/bugs/distributions/DDirch.cc:142-172 | The loop and the final correction compute KLSpec. |
| DDirchs.KLLoop | src/modules/bugs/distributions/DDirch.cc:152-168 | The loop yields the sums and terms, or stops where it returns plus infinity. |
| DDirchs.KLPrefixStep | src/modules/bugs/distributions/DDirch.cc:153-168 | One more element extends the loop's state by one step. |
| DDirchs.KLPrefixSelf | src/modules/bugs/distributions/DDirch.cc:153-168 | From a distribution to itself the loop never stops early, its two sums agree, and its terms add up to 0. |
| DDirchs.KLSelf | src/modules/bugs/distributions/DDirch.cc:142-172 | A distribution is at divergence 0 from itself. |
| DMNorms.CheckedDimsFit | src/modules/bugs/distributions/DMNorm.cc:117-133 | Accepted dimensions, a scalar pair or a vector with a square matrix of its size, give an m x m precision for a value of length m. |
| DMNorms.CheckParameterValue | src/modules/bugs/distributions/DMNorm.cc:135-143 | Accepts iff the precision passes both the symmetry test and the positive-definiteness test. |
| DMNorms.Support | src/modules/bugs/distributions/DMNorm.cc:146-154 | Every lower bound is minus infinity and every upper bound is plus infinity. |
| DMNorms.TypicalValue | src/modules/bugs/distributions/DMNorm.cc:156-164 | The typical value is the mean. |
| DMNorms.Delta | src/modules/bugs/distributions/DMNorm.cc:35 | x - mu, element by element. |
| DMNorms.TermSymmetric | src/modules/bugs/distributions/DMNorm.cc:36-38 | With a symmetric precision, term (i, j) of the quadratic form equals term (j, i). |
| DMNorms.HalfQuadraticIsHalf | src/modules/bugs/distributions/DMNorm.cc:34-40 | With a symmetric precision, half the diagonal plus the strict lower triangle, as the loops subtract them, is half the full quadratic form. |
| DMNorms.PDFTypesDiffer | src/modules/bugs/distributions/DMNorm.cc:42-51 | The prior density is minus half the quadratic form; the likelihood adds half the log determinant; the full density also subtracts m log(sqrt(2 pi)). |
| DMNorms.LogDensity | src/modules/bugs/distributions/DMNorm.cc:24-54 | The loops and the switch on the PDF type compute LogDensitySpec. |
| DMNorms.SubtractDiagonal | src/modules/bugs/distributions/DMNorm.cc:36 | Subtracts half of the diagonal term of row i. |
| DMNorms.SubtractRow | src/modules/bugs/distributions/DMNorm.cc:37-39 | Subtracts the strictly lower terms of row i. |
| DMNorms.NormalDraws | src/modules/bugs/distributions/DMNorm.cc:93-102 | One normal draw per remaining eigen direction. |
| DMNorms.NormalDrawsValid | src/modules/bugs/distributions/DMNorm.cc:93-102 | The normal draws leave a valid generator valid. |
| DMNorms.DrawNormals | src/modules/bugs/distributions/DMNorm.cc:93-102 | Either loop draws rnorm(0, 1/sqrt(lambda)) for a precision or rnorm(0, sqrt(lambda)) for a variance, for each eigenvalue in order. |
| DMNorms.NormalStep | src/modules/bugs/distributions/DMNorm.cc:95-100 | One draw, followed by the draws for the remaining directions. |
| DMNorms.RowTerms | src/modules/bugs/distributions/DMNorm.cc:109-111 | The products V[i + j nrow] w[j] of row i. |
| DMNorms.DrawSpec | src/modules/bugs/distributions/DMNorm.cc:68-115 | The sample has nrow elements and keeps the generator valid. |
| DMNorms.DrawShift | src/modules/bugs/distributions/DMNorm.cc:107-112 | The draw with a mean is the mean plus the draw without one, and uses the same random numbers. |
| DMNorms.Transform | src/modules/bugs/distributions/DMNorm.cc:107-112 | x = mu + V w, with 0 in place of mu when no mean is given. |
| DMNorms.AccumulateRow | src/modules/bugs/distributions/DMNorm.cc:109-111 | Adds row i's products to x[i] and leaves the other elements alone. |
| DMNorms.DrawMNorm | src/modules/bugs/distributions/DMNorm.cc:68-115 | The eigen decomposition, the normal draws and the transform compute DrawSpec. |
| DMNorms.RandomSample | src/modules/bugs/distributions/DMNorm.cc:56-66 | randomsample with the mean and the precision. |
| DMTs.CheckedDimsFit | src/modules/bugs/distributions/DMT.cc:75-91 | Accepted dimensions give a value of length m > 1, an m x m matrix T and one degrees-of-freedom value. |
| DMTs.CheckParameterValue | src/modules/bugs/distributions/DMT.cc:93-102 | Accepts iff k >= 2, which makes k positive. |
| DMTs.Support | src/modules/bugs/distributions/DMT.cc:105-113 | Every lower bound is minus infinity and every upper bound is plus infinity. |
| DMTs.LowerTermDoubles | src/modules/bugs/distributions/DMT.cc:38-42 | With a symmetric T, reading T row by row, each lower term is twice the matching term of the quadratic form. |
| DMTs.LowerSumDoubles | src/modules/bugs/distributions/DMT.cc:40-42 | With a symmetric T, the inner loop's sum is twice the row's strictly lower sum. |
| DMTs.InnerProductIsQuadratic | src/modules/bugs/distributions/DMT.cc:33-43 | With a symmetric T, ip is the full quadratic form t(x - mu) T (x - mu). |
| DMTs.InnerProductDoublesHalf | src/modules/bugs/distributions/DMT.cc:33-43 | With a symmetric T, ip is minus twice the half form that DMNorm's log density subtracts. |
| DMTs.LogDensityParts | src/modules/bugs/distributions/DMT.cc:46-55 | With a symmetric T, the prior density is the kernel of the quadratic form; the likelihood equals the full density; and full minus prior does not depend on x. |
| DMTs.LogDensity | src/modules/bugs/distributions/DMT.cc:24-56 | The loops and the PDF-type test compute LogDensitySpec. |
| DMTs.AccumulateInnerProduct | src/modules/bugs/distributions/DMT.cc:33-43 | The double loop accumulates ip as the row-wise lower-triangle sum. |
| DMTs.AddDiagonal | src/modules/bugs/distributions/DMT.cc:39 | Adds the diagonal term of row i. |
| DMTs.AddRow | src/modules/bugs/distributions/DMT.cc:40-42 | Adds twice each strictly lower term of row i. |
| DMTs.Scale | src/modules/bugs/distributions/DMT.cc:69 | The scale C = sqrt(rchisq(k) / k) is positive. |
| DMTs.SampleSpec | src/modules/bugs/distributions/DMT.cc:58-73 | The sample has m elements. |
| DMTs.SampleCentred | src/modules/bugs/distributions/DMT.cc:68-72 | Each element is mu[i] plus the zero-mean normal draw divided by the positive scale C. |
| DMTs.RandomSample | src/modules/bugs/distributions/DMT.cc:58-73 | The normal draw, the chi-squared scale and the rescaling compute SampleSpec. |
| DMTs.RescaleInPlace | src/modules/bugs/distributions/DMT.cc:70-72 | Rewrites x as mu + (x - mu) / C, element by element. |
| DNormMixes.CheckParameterLength | src/modules/mix/distributions/DNormMix.cc:24-32 | Accepts iff there is not exactly one component and all three parameters have the same length. |
| DNormMixes.CheckParameterValue | src/modules/mix/distributions/DNormMix.cc:34-45 | Accepts iff every component has a positive precision and a positive weight. |
| DNormMixes.ComponentDensities | src/modules/mix/distributions/DNormMix.cc:57-58 | One normal density per component, with standard deviation 1 / sqrt(tau). |
| DNormMixes.Weighted | src/modules/mix/distributions/DNormMix.cc:57-58 | Each component density times its weight. |
| DNormMixes.Accumulate | src/modules/mix/distributions/DNormMix.cc:54-60 | The accumulation loop yields the weighted density and the total weight. |
| DNormMixes.LogDensity | src/modules/mix/distributions/DNormMix.cc:47-62 | The log of the weighted density minus the log of the total weight. |
| DNormMixes.TotalsScaleFree | src/modules/mix/distributions/DNormMix.cc:54-61 | Scaling all weights by c scales the weighted density and the total weight alike, so the unnormalised weights give the same log density for c > 0. |
| DNormMixes.WeightedScaled | src/modules/mix/distributions/DNormMix.cc:57-58 | Scaling the weights by c scales the weighted density by c. |
| DNormMixes.WeightsScaleTerms | src/modules/mix/distributions/DNormMix.cc:57-58 | Each weighted term scales with its weight. |
| DNormMixes.Length | src/modules/mix/distributions/DNormMix.cc:110-113 | The value is a scalar whatever the parameter lengths. |
| DNormMixes.Support | src/modules/mix/distributions/DNormMix.cc:101-108 | The support is the whole real line. |
| DNormMixes.Component | src/modules/mix/distributions/DNormMix.cc:81-89 | The chosen component is below Ncat; it is the first i < Ncat - 1 whose running weight exceeds u times the total weight, and the last component when no such i exists. |
| DNormMixes.ComponentPositive | src/modules/mix/distributions/DNormMix.cc:71-90 | With positive weights and u in [0, 1), the chosen component has positive weight. |
| DNormMixes.SampleSpec | src/modules/mix/distributions/DNormMix.cc:64-94 | One uniform draw then one normal draw: a single value. |
| DNormMixes.RandomSample | src/modules/mix/distributions/DNormMix.cc:64-94 | The sample and the generator state are what SampleSpec gives. |
| DNormMixes.SampleOfComponent | src/modules/mix/distributions/DNormMix.cc:91-93 | Once the component r is chosen, the sample is mu[r] + norm_rand / sqrt(tau[r]) from the next generator state. |
| DNormMixes.TotalWeight | src/modules/mix/distributions/DNormMix.cc:73-77 | The first loop of randomSample returns the sum of the weights. |
| DNormMixes.SelectComponent | src/modules/mix/distributions/DNormMix.cc:79-89 | The selection loop returns the cumulative choice for pRand. |
| DRounds.CheckParameterDiscrete | src/modules/bugs/distributions/DRound.cc:39-42 | Accepts iff the number of digits is discrete. |
| DRounds.LogDensity | src/modules/bugs/distributions/DRound.cc:44-50 | 0 when y is within 16 times the machine epsilon of the rounded value, and minus infinity otherwise. |
| DRounds.RandomSample | src/modules/bugs/distributions/DRound.cc:52-62 | One value, and the generator is left untouched. |
| DRounds.SampleIsDeterministic | src/modules/bugs/distributions/DRound.cc:52-62 | The sample does not depend on the generator, and its log density is 0. |
| DRounds.Df | src/modules/bugs/distributions/DRound.cc:64-67 | No degrees of freedom. |
| DRounds.L | src/modules/bugs/distributions/DRound.cc:69-72 | The lower limit is a point of positive density. |
| DRounds.U | src/modules/bugs/distributions/DRound.cc:74-77 | The upper limit is a point of positive density. |
| DRounds.LimitsAreSample | src/modules/bugs/distributions/DRound.cc:52-77 | The lower limit, the upper limit and the sample are the same value. |
| DRounds.IsSupportFixed | src/modules/bugs/distributions/DRound.cc:79-82 | The support is fixed iff both parameters are fixed. |
| DRounds.KL | src/modules/bugs/distributions/DRound.cc:84-93 | The divergence is 0 or plus infinity. |
| DRounds.KLZeroIffSamePoint | src/modules/bugs/distributions/DRound.cc:84-93 | The divergence is 0 iff both parameter sets round to the same point; so it is 0 from a distribution to itself, and it is symmetric. |
| Seqs.Length | src/modules/base/functions/Seq.cc:29-41 | Zero when the truncated rhs is below the truncated lhs, otherwise rhs - lhs + 1. |
| Seqs.ValuesAreUnitSteps | src/modules/base/functions/Seq.cc:14-27 | The values start at lhs, end at rhs, rise in unit steps and are all integers. |
| Seqs.IntegralOfInt | src/modules/base/functions/Seq.cc:48-51 | An integer converted to real is integral. |
| Seqs.Evaluate | src/modules/base/functions/Seq.cc:14-27 | Writes lhs, lhs + 1, ..., rhs into the first Length elements and leaves the rest unchanged. |
| Seqs.CheckParameterLength | src/modules/base/functions/Seq.cc:43-46 | Accepts exactly two scalars. |
| Seqs.CheckParameterDiscrete | src/modules/base/functions/Seq.cc:53-57 | Accepts iff both arguments are discrete. |
| Seqs.CheckParameterFixed | src/modules/base/functions/Seq.cc:59-64 | Accepts iff both arguments are fixed. |
| Seqs.Deparse | src/modules/base/functions/Seq.cc:66-69 | The first argument, then ':', then the second. |
| Sorts.Evaluate | src/modules/bugs/functions/Sort.cc:20-28 | The first len values are sorted and are a permutation of the first len arguments; the rest of the value array is unchanged. |
| Sorts.SortPrefix | src/modules/bugs/functions/Sort.cc:27 | Sorts the first len elements in place as a permutation and leaves the rest alone. |
| Sorts.Insert | src/modules/bugs/functions/Sort.cc:27 | Extends a sorted prefix by one element and keeps the multiset. |
| Sorts.Swap | src/modules/bugs/functions/Sort.cc:27 | Exchanges two adjacent elements, keeping the multiset and every other element. |
| Sorts.CheckParameterDim | src/modules/bugs/functions/Sort.cc:36-40 | An accepted argument is a vector or a scalar: one dimension, at least one element. |
| Sorts.CountFalse | src/modules/bugs/functions/Sort.cc:47 | Counts the false entries: zero iff every entry is true. |
| Sorts.IsDiscreteValuedAsWritten | src/modules/bugs/functions/Sort.cc:49-51 | As compiled: true iff SOME argument is not discrete. |
| Sorts.IsDiscreteValuedAsWrittenInverted | src/modules/bugs/functions/Sort.cc:49-51 | A discrete argument gives false and a continuous argument gives true. |
| Sorts.IsDiscreteValued | src/modules/bugs/functions/Sort.cc:44-48 | As intended: true iff every argument is discrete. |
| Sorts.SortedValueDiscrete | src/modules/bugs/functions/Sort.cc:20-28 | When the intended answer says discrete, every element of a permutation of the argument is an integer. |
| InterpLins.ScalarEval | src/modules/bugs/functions/InterpLin.cc:15-44 | The search loop and the returns compute InterpSpec: y[0] left of the first knot, y[N-1] at or right of the last, the line through the first interval holding xnew in between, and NaN if no interval holds it. |
| InterpLins.BracketFound | src/modules/bugs/functions/InterpLin.cc:28-33 | For x[k] <= xnew < x[N-1] the search from k finds an interval before N-1, whatever the knots' order. |
| InterpLins.NaNUnreachable | src/modules/bugs/functions/InterpLin.cc:34-38 | For NaN-free arguments the NaN branch is never taken: the value is finite for every input of the right lengths. |
| InterpLins.FractionInUnit | src/modules/bugs/functions/InterpLin.cc:40-41 | The linear formula on [lo, hi) stays between the two end values. |
| InterpLins.BetweenNeighbours | src/modules/bugs/functions/InterpLin.cc:27-43 | Inside [x[0], x[N-1]) the value is the line of the bracketing interval and lies between the y values at its ends. |
| InterpLins.IncreasingOrdered | src/modules/bugs/functions/InterpLin.cc:57-60 | Knots that increase step by step increase between any two indices. |
| InterpLins.BracketAtKnot | src/modules/bugs/functions/InterpLin.cc:29-33 | With increasing knots the search from any i <= k stops at knot k when xnew = x[k]. |
| InterpLins.LineAtLeftEnd | src/modules/bugs/functions/InterpLin.cc:40-41 | The line of interval i passes through (x[i], y[i]). |
| InterpLins.AtKnot | src/modules/bugs/functions/InterpLin.cc:23-43 | With increasing knots the interpolant passes through every point (x[k], y[k]). |
| InterpLins.CheckParameterLength | src/modules/bugs/functions/InterpLin.cc:46-50 | Accepts exactly a scalar xnew with non-empty x and y of equal length. |
| InterpLins.CheckParameterValue | src/modules/bugs/functions/InterpLin.cc:52-62 | Accepts iff the knots increase strictly. |
| InProds.ScalarEvalSymmetric | src/modules/bugs/functions/InProd.cc:18-23 | The inner product of the first n elements is symmetric in its two arguments. |
| InProds.ScalarEvalScales | src/modules/bugs/functions/InProd.cc:18-23 | Scaling the first argument by c scales the inner product by c. |
| InProds.CheckParameterLength | src/modules/bugs/functions/InProd.cc:25-29 | Accepts exactly two non-empty vectors of equal length. |
| InProds.IsDiscreteValued | src/modules/bugs/functions/InProd.cc:31-34 | Discrete iff every argument is discrete. |
| InProds.IsScale | src/modules/bugs/functions/InProd.cc:36-49 | Never a scale function when both arguments depend on the node (the quadratic case). |
| InProds.IsScaleSound | src/modules/bugs/functions/InProd.cc:36-49 | When isScale accepts, scaling the argument that depends on the node by c scales the inner product by c. |
| ArrayLogDensities.Name | src/lib/function/ArrayLogDensity.cc:11-15 | "logdensity." followed by the distribution's name without its first letter. |
| ArrayLogDensities.NPar | src/lib/function/ArrayLogDensity.cc:11-15 | One more argument than the distribution has parameters. |
| ArrayLogDensities.Dim | src/lib/function/ArrayLogDensity.cc:17-22 | The log density is a scalar: dimension [1]. |
| ArrayLogDensities.Evaluate | src/lib/function/ArrayLogDensity.cc:24-40 | The full, unbounded log density of the first argument, of length the product of its dimensions, with the remaining arguments and dimensions as parameters. |
| ArrayLogDensities.CheckParameterDim | src/lib/function/ArrayLogDensity.cc:44-59 | Accepts iff the distribution accepts the parameter dimensions and the value has the dimension the distribution gives them. |
| ArrayLogDensities.IntegerMask | src/lib/function/ArrayLogDensity.cc:71-75 | One entry per parameter, true iff the parameter's first element is an integer. |
| ArrayLogDensities.MakeMask | src/lib/function/ArrayLogDensity.cc:71-75 | The mask loop computes IntegerMask. |
| ArrayLogDensities.CheckParameterValue | src/lib/function/ArrayLogDensity.cc:61-91 | Accepts iff the distribution allows the parameters' integer mask, the value is an integer whenever the distribution is then discrete-valued, and the distribution accepts the parameter values. |
| Distributions.ShiftArguments | src/lib/function/ArrayLogDensity.cc:31-36 | The n arguments after the first, in order. |
| PFunctions.Name | src/lib/function/PFunction.cc:10-12 | "p" followed by the distribution's name without its first letter. |
| PFunctions.Evaluate | src/lib/function/PFunction.cc:14-23 | The lower-tail, non-log distribution function at the first argument, with the rest as parameters. |
| PFunctions.CheckParameterValue | src/lib/function/PFunction.cc:25-35 | Rejects a non-integer x for a discrete distribution; otherwise accepts iff the shared argument check does. |
| DFunctions.Name | src/lib/function/DFunction.cc:10-12 | The distribution's own name. |
| DFunctions.Evaluate | src/lib/function/DFunction.cc:14-23 | The full, non-log density at the first argument, with the rest as parameters. |
| DFunctions.CheckParameterValue | src/lib/function/DFunction.cc:25-35 | Rejects a non-integer x for a discrete distribution; otherwise accepts iff the shared argument check does. |
| DFunctions.SameChecksAsP | src/lib/function/DFunction.cc:25-35 | The d and p functions of a distribution accept the same arguments, and their names differ only in the first letter. |
| DevianceTraces.ToNode | src/modules/dic/DevianceTrace.cc:13-20 | The same nodes, in the same order. |
| DevianceTraces.LogDensities | src/modules/dic/DevianceTrace.cc:46-48 | One full log density per stochastic node, in node order, for the chain. |
| DevianceTraces.DevianceOfOneNode | src/modules/dic/DevianceTrace.cc:44-50 | Changing one node's log density moves the deviance by -2 times that change. |
| DevianceTraces.DevianceTrace.constructor | src/modules/dic/DevianceTrace.cc:24-29 | Watches the stochastic nodes and starts with one empty history per chain. |
| DevianceTraces.DevianceTrace.Dim | src/modules/dic/DevianceTrace.cc:31-34 | One value per iteration: dimension [1]. |
| DevianceTraces.DevianceTrace.Update | src/modules/dic/DevianceTrace.cc:41-51 | Appends each chain's deviance, -2 times the sum of the log densities, to that chain's history and changes nothing else; all histories keep the same length. |
| DevianceTraces.TotalLogDensity | src/modules/dic/DevianceTrace.cc:44-50 | The accumulation loop returns the sum of the nodes' log densities. |

## Left out

- The console driver and life cycle are left out because they are I/O and process control: stream output, parsing, compile/initialize/update orchestration, module loading, state and monitor dumps, and CODA output.
- BLAS/LAPACK calls are left out as foreign linear algebra. These are the accumulation and solve of ConjugateMNormal::update, the eigen decomposition of DMNorm::randomsample and the matrix products of DMT. They are function-valued parameters, and only the structure around them is proved.
- lgamma, digamma, log, sqrt, logdet, dnorm, fround, the inverse links and the p/q/d/r functions of each distribution are left out as floating-point numerics. They are oracles, with only the range facts the code relies on.
- The internals of the RNGs are left out. Uniform, normal, exponential, gamma, chi-squared and binomial draws are read from fixed streams, and only their ranges are assumed.
- The `#pragma omp critical` of ConjugateMNormal::update is left out as concurrency. Each chain is updated sequentially.
- Slicers: the `for(;;)` shrink loops terminate only with probability one, so they run on an explicit fuel bound. Running out of fuel is reported as a runtime error, which the source never raises.
- Destructors, `new`/`delete` and ownership are left out as memory management.
- Plugin registration, the monitor factories and the Inverse function are left out. They register objects or wrap code that is not shown.
- Header-only declarations without bodies are left out, because there is no behaviour to check.
- util/dim.h is not part of this model. isScalar, isVector and isSquareMatrix are given their usual JAGS meaning in Dims: [1], [n] with n > 1, and [n, n].
- Comparisons with a NaN argument are left out. The comparison operators work over Dafny reals, which have no NaN.
- Machine integer widths are not modelled: int and unsigned long are unbounded, and TruncToInt truncates toward zero without overflow. The two unsigned wrap-arounds the code depends on are written out: ULONG_MAX as "no index" in ShiftedMultinomial is an explicit constant, and DDirchs.Df wraps length - 1 at length 0.
- DNormMixes.SelectComponent: the unsigned `Ncat - 1` that wraps when there are no components is not modelled. checkParameterLength does not rule that case out: it accepts lengths [0, 0, 0]. At least one component is required because every JAGS node has at least one element, the same reason the DSum samplers' lines give.
- Sorts.SortPrefix: std::sort is modelled by an insertion sort with the same contract, sorted and a permutation. The order in which std::sort compares and moves elements is not modelled.
- ShiftedMultinomials: a zero remaining probability takes probability ratio 0, so such an entry draws nothing. This replaces the source's division by zero.
- FiniteMethods.Update: the likelihood at each support point is an oracle standing for exp of the full conditional log density. The node's changing value while it is evaluated is not modelled.
- DMNorms.CheckParameterValue: check_symmetry and check_symmetric_ispd are oracles, so the model states only that both must pass.
- DNormMixes.LogDensity: the result is stated as log of the weighted density sum minus log of the probability sum. TotalsScaleFree proves that both sums scale together under rescaled probabilities. That the difference of logs is then unchanged needs the logarithm's product rule, which is not modelled for an oracle log.
- ConjugateMNormals.ConjugateMNormal.Update: the children's contributions to A and b, the solve and the multivariate normal draw are LinearAlgebra oracles. What is proved is the prior set-up of A and b, the betas handed to the accumulation, the solve-failure path and the write-back.
- CensoredSamplers.Update: truncatedSample is an oracle taking the chosen bounds, and its result is written to that chain only.
- IWLSFactories: newMethod only constructs an IWLS object, which is not shown, so it is left out.
- Constant answers with no inputs (function and operator names, `isDiscreteValued` that is true for every mask, `poolChains`/`poolIterations`, DDirch's alias) are constants or predicates whose definitions are the whole statement. They carry no separate contract.
- Double arithmetic is exact real arithmetic in the model: no rounding, no overflow to ±Inf and no NaN inputs. These lemmas hold only under exact arithmetic and can fail by rounding on doubles: RealDSums.TransferKeepsRowSums, RealDSums.TransferKeepsTotal, DMultiDSums.ExchangeKeepsRowSums, DMultiDSums.ExchangeKeepsColSums, DDirchs.NormalisedSumsToOne, DNormMixes.TotalsScaleFree and ShiftedMultinomials.PlusSum.
- InterpLins.NaNUnreachable: NaN arguments of interp.lin are not modelled. With a NaN xnew, or a NaN knot such as x = [0, NaN] with xnew = 0.5, every comparison of the search fails and InterpLin.cc:34-38 returns JAGS_NAN. The NaN branch is unreachable only for NaN-free arguments.
- LogicalFactories.LogicalFactory.GetNode: the memo lookup is modelled under the corrected, lexicographic key order (see Findings). Under lt as written (LogicalFactory.cc:25-37), std::map::find can miss a key that is already recorded and build a second node for it. The model does not show that duplicate.
- ReadData.ReadRData takes the parse as the R-dump grammar builds it (WellFormed, Decodable, DimShape). The grammar is not part of this model. Those shapes are: no null entries; array entries with one or two parameters; data vectors and dimension vectors of value trees only; ranges of two value trees. Other shapes are not modelled: ParseTree::value() on a tree that is not a value throws logic_error, an array entry with three or more parameters is read as having no dimension attribute (ReadData.cc:83 tests for exactly two), and a null entry is dereferenced.
- DMultiDSums and RealDSums: a matrix with no elements is not modelled. There pick(n - 1) becomes pick(ULONG_MAX), whose unsigned-int counter wraps before it reaches the bound, and the loop almost surely never ends. Every JAGS node has at least one element, so DMultiDSums.Step requires nrow, ncol >= 1 and RealDSums.Step requires ncol >= 1. A one-row or one-column matrix is modelled: a write outside the value, which is undefined behaviour in C++, is reported and left out.
- BUGSModels.RngParameters: every failure in the source comes after _symtab.writeValues has written the table into the chain (BUGSModel.cc:137). A bad ".RNG.state" also comes after rng->init has taken the seed (BUGSModel.cc:153). The model returns the error without those earlier effects.
- GraphModel.GetSortedNodes: on a directed cycle the source throws after it has already moved some of the nodes out of S into the output vector. The model's failure returns only the stuck remainder, and that partial output is lost.
- DSumFactories.MakeSampler and DevianceTraces.DevianceTrace take the number of chains as a parameter. The source reads it from the nodes (parameters[0]->nchain()), which in the model carry no chain count. All nodes of a model share it.
- DMNorms.DrawNormals: R's rnorm(mu, 0) returns mu without taking a draw. The model takes a normal draw for every eigenvalue, including a zero variance eigenvalue, so after such an eigenvalue the stream is one draw ahead of the source's.
- ShiftedMultinomials.CanSample and ShiftedMultinomials.ShiftedMultinomial.constructor use the corrected index, MakeIndexIntended (see Findings). As written, makeIndex accepts a node with two children of size one at the same element and records the last of them (ShiftedMultinomials.IndexLastWins). The model of canSample and the constructor does not show that acceptance.
- LogicalFactories.NewNode: the constructors of ScalarLogicalNode, VSLogicalNode, VectorLogicalNode and ArrayLogicalNode are not part of this model, so any check of their own is not part of newNode's answer. The LinkNode constructor's check is part of it. A link function with no parents makes that constructor read parents[0] of an empty vector, which is undefined behaviour; the model reports it as runtime_error.

## Findings

| source | as written | input that shows it | evidently intended | confidence | as-written member | corrected member |
|---|---|---|---|---|---|---|
| src/modules/bugs/functions/Sort.cc:42-52 | Outside Solaris, isDiscreteValued returns `count(mask, false)` converted to bool. It is true exactly when some argument is NOT discrete. | mask [true] (a discrete argument) gives false; mask [false] gives true | true exactly when every argument is discrete, as the Solaris branch (`n == 0`) says | not executed | Sorts.IsDiscreteValuedAsWrittenInverted | Sorts.SortedValueDiscrete |
| src/lib/compiler/LogicalFactory.cc:25-37 | lt(FunctionPtr, FunctionPtr) is true when ANY of the four pointers is less. That is not a strict weak order, as std::map requires. | FunctionPtr(1, 0, 0, 0) and FunctionPtr(0, 1, 0, 0): each is "less" than the other | a lexicographic comparison of the four pointers | not executed | LogicalFactories.FunctionLtAsWrittenNotAsymmetric | LogicalFactories.FunctionLtStrictTotal |
| src/modules/bugs/samplers/ShiftedMultinomial.cc:84-100 | found_index is declared inside the loop over the children, so it is false at every test and the "more than one stochastic child depends on X[i]" return never fires. The last child of size one at e_i is recorded. | a one-element node with two binomial children that both have size X[0]: index [1] instead of an empty index | an empty index (the node is not sampled) when two children have size one at the same unit vector, as the comment at line 93 says | not executed | ShiftedMultinomials.TwoUnitChildrenDiffer | ShiftedMultinomials.IndexIntendedOnlyChild |

## Notes

- The comment at src/lib/graph/AggNode.cc:19-35 says that X <- A[4:8]; Y <- X[3:4] gives Y the elements A[7:8]. The offsets the code composes pick A's 6th and 7th elements (A[6:7]), since X[3] is A[6]. AggNodes.SubsetOfSubset proves the code's answer. The model follows the code.
- For NaN-free arguments, the NaN branch of InterpLin::scalarEval can never be taken, even when the knots are not increasing (InterpLins.NaNUnreachable).
- DMultiDSum::step and RealDSum::step do not check the matrix shape. With one column, the second column pick is 1, so every step writes past the end of the value (DMultiDSums.OneColumnOutside, RealDSums.OneColumnOutside). With one row, DMultiDSum's second row is 1, and an in-range step changes a column sum (DMultiDSums.OneRowBreaksColumnSum).
