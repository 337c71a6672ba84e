# UNet3+ wiring and training bookkeeping in Dafny

This project models two parts of an image segmentation repository.

The first is the UNet3+ network with an EfficientNet encoder
(`model/u3_effnet/unet3plus.py`). It covers how the network is wired, not
what it computes numerically. Every tensor becomes its shape without the
batch dimension (`Shape(ch, h, w)`). Every torch module becomes a `Layer`
value, and `Apply` gives the shape that module produces, or `None` where
torch raises (a channel mismatch, an empty output). The model covers:

- `autopad` and `u3pblock`;
- the encoder-to-decoder and decoder-to-decoder bridges;
- the full-scale skip connection;
- the encoder's backbone dispatch and compress layers;
- the decoder stack;
- the `UNet3Plus` constructor and its `forward`, with the dictionary of
  predictions it returns.

The main theorems are these:

- On an encoder pyramid, the first decoder stage (an identity) returns
  the coarsest encoder map unchanged, and every stage after the first
  produces `skip_ch * n` channels at twice the previous stage's
  resolution (`Decoder.DecoderShapes`).
- Every score map the model returns is `num_classes x h x w`
  (`UNet3Plus.UNetShapes`).
- The keys of the prediction dictionary are exactly `out`, `cls` when the
  class branch runs, and `aux{ii}` for the auxiliary heads `forward`
  reaches (`UNet3Plus.UNetKeys`).

The second is the bookkeeping of the training script
(`archive/trainer_hook.py`):

- the `hh:mm:ss` rendering of elapsed seconds, proved to read back as the
  input;
- the epoch and validation schedule;
- the value handed to the hook;
- the best-Dice and best-checkpoint updates, over a set of files on disk;
- in `validation`, the collection of one sample per image and the
  selection of the worst samples. That selection is a stable ascending
  sort cut to a prefix, proved sorted, a permutation and stable.

Constructors and forward passes that loop are methods. Each is proved
equal to a specification function, and the lemmas are stated about those
functions.

## Model

| member | source | states |
|---|---|---|
| Text.NatToString | model/u3_effnet/unet3plus.py:125 | `str(n)` is a non-empty string of decimal digits with no leading zero |
| Text.ValueOfNatToString | model/u3_effnet/unet3plus.py:125 | reading `str(n)` back as decimal gives `n` |
| Text.NatToStringInjective | model/u3_effnet/unet3plus.py:125 | distinct numbers render as distinct strings, so `layer{ii}` and `aux{ii}` keys never collide |
| Text.ZeroPad | archive/trainer_hook.py:23 | zero-padding to a width yields max(width, \|s\|) characters: leading '0's followed by the original string |
| Text.ValueOfZeroPad | archive/trainer_hook.py:23 | zero-padding keeps the string all digits and does not change its value |
| Text.Pad2 | archive/trainer_hook.py:23 | `{n:02d}` has at least two digits (exactly two below 100) and denotes `n`; from 10 on it is `str(n)` itself, below 10 one '0' before it |
| Layers.Apply | model/u3_effnet/unet3plus.py:18-41 | the shape each torch module of the blocks produces, or failure where torch raises: a conv needs its input width and a positive output, BatchNorm its width, pooling and upsampling a non-empty map; a Sequential runs its body in order |
| Layers.ApplyAll | model/u3_effnet/unet3plus.py:27 | an `nn.Sequential` forward: its layers in order, the first failure failing the whole |
| Layers.ApplyAllAppend | model/u3_effnet/unet3plus.py:27 | running the concatenation of two Sequential bodies is running the first, then the second on its output |
| Layers.AutoPad | model/u3_effnet/unet3plus.py:12-16 | an explicit padding is returned unchanged; otherwise each axis gets floor(k/2), i.e. `2p <= k < 2p+2` |
| Layers.AutoPadKeepsSize | model/u3_effnet/unet3plus.py:12-16 | with the automatic padding, a convolution with an odd kernel keeps the spatial size |
| Layers.ConvTriples | model/u3_effnet/unet3plus.py:22-26 | the `num_block` Conv/BatchNorm/ReLU triples, the first conv reading `in_ch` and every later one `out_ch` |
| Layers.U3PBlock | model/u3_effnet/unet3plus.py:18-27 | `u3pblock` as a Sequential: a 2x2 max-pool first iff `down_sample`, then the triples |
| Layers.ConvTriplesSnoc | model/u3_effnet/unet3plus.py:22-26 | the triples of `u3pblock` can be built by appending one at a time; the first conv reads `in_ch`, later ones `out_ch` |
| Layers.BuildU3PBlock | model/u3_effnet/unet3plus.py:18-27 | the loop builds exactly the `u3pblock` description |
| Layers.U3PBlockStructure | model/u3_effnet/unet3plus.py:18-27 | a max-pool first iff `down_sample`, then exactly `num_block` Conv/BatchNorm/ReLU triples; the first conv reads `in_ch`, every later one `out_ch` |
| Layers.ConvTriplesShape | model/u3_effnet/unet3plus.py:22-26 | 3x3 convs with padding 1 keep the spatial size and end with `out_ch` channels |
| Layers.U3PBlockShape | model/u3_effnet/unet3plus.py:18-27 | `u3pblock` halves the size (rounding down) when down-sampling, keeps it otherwise, and emits `out_ch` channels once it has a block |
| Layers.En2DecLayer | model/u3_effnet/unet3plus.py:29-32 | `en2dec_layer`: Identity at scale 1, otherwise a ceil-mode max-pool of size and stride `scale`, then a one-conv block to `out_ch` |
| Layers.Dec2DecLayer | model/u3_effnet/unet3plus.py:34-41 | `dec2dec_layer`: a one-conv block to `out_ch` and an upsample by `scale` (Identity at 1), the upsample last when `fast_up` and first otherwise |
| Layers.En2DecShape | model/u3_effnet/unet3plus.py:29-32 | `en2dec_layer` pools by `scale`, rounding up (ceil mode), and emits `out_ch` channels |
| Layers.Dec2DecShape | model/u3_effnet/unet3plus.py:34-41 | `dec2dec_layer` in either order emits `out_ch` channels at `scale` times the size |
| Layers.CeilDivMultiple | model/u3_effnet/unet3plus.py:30 | ceil-mode pooling of an exact multiple of the stride divides exactly |
| SkipConnection.DefaultDecScales | model/u3_effnet/unet3plus.py:66-69 | the default decoder-to-decoder scales `[2^num_dec, ..., 2^1]` |
| SkipConnection.ScalesOf | model/u3_effnet/unet3plus.py:66-72 | the scales the dec2dec layers use: the given `dec_scales`, or the default when it is None |
| SkipConnection.DefaultDecScalesAt | model/u3_effnet/unet3plus.py:66-69 | the default decoder scales are `num_dec` entries, entry `j` being `2^(num_dec-j)` |
| SkipConnection.DefaultDecScalesDecreasing | model/u3_effnet/unet3plus.py:66-69 | the default scales strictly decrease and are all at least 2 |
| SkipConnection.SkipConnectSpec | model/u3_effnet/unet3plus.py:45-75 | the block the constructor registers: zip-truncated en2dec layers, dec2dec layers over the given or default scales with the first reading `bottom_dec_ch`, `concat_ch = skip_ch*(len(en_channels)+num_dec)` and a fuse block of that width |
| SkipConnection.NewSkipConnect | model/u3_effnet/unet3plus.py:45-75 | the constructor registers `concat_ch = skip_ch*(len(en_channels)+num_dec)`, a fuse block of that width, one en2dec layer per zipped pair and `num_dec` dec2dec layers by default |
| SkipConnection.BuildEn2Dec | model/u3_effnet/unet3plus.py:59-62 | one en2dec layer per (channel, scale) pair, `zip` truncating to the shorter |
| SkipConnection.BuildDefaultScales | model/u3_effnet/unet3plus.py:66-69 | the loop over `reversed(range(num_dec))` yields the default scales |
| SkipConnection.BuildDec2Dec | model/u3_effnet/unet3plus.py:70-72 | one dec2dec layer per scale; the first reads `bottom_dec_ch`, the rest `concat_ch` |
| SkipConnection.SkipInputs | model/u3_effnet/unet3plus.py:77-83 | the list `out`: each zipped encoder map through its en2dec layer, then, for given non-empty decoder maps, each zipped one through its dec2dec layer |
| SkipConnection.SkipInputsAt | model/u3_effnet/unet3plus.py:77-83 | `out` holds the zipped encoder parts first, then the zipped decoder parts only when decoder maps are given and non-empty |
| SkipConnection.Concat | model/u3_effnet/unet3plus.py:84 | `torch.cat(out, 1)`: widths add up, the spatial sizes must agree, an empty list or a failing part fails |
| SkipConnection.ConcatUniform | model/u3_effnet/unet3plus.py:84 | concatenating k maps of `c` channels at one size gives `c*k` channels at that size |
| SkipConnection.ConcatFails | model/u3_effnet/unet3plus.py:84 | a failing part makes the concatenation fail |
| SkipConnection.SkipForward | model/u3_effnet/unet3plus.py:77-84 | `forward`: the parts of `out`, concatenated, then dropout and the fuse block |
| SkipConnection.SkipConnectForward | model/u3_effnet/unet3plus.py:77-84 | the forward loops, concatenation, dropout and fuse compute the stage's output shape |
| SkipConnection.EnPartShape | model/u3_effnet/unet3plus.py:79-80 | an encoder map exactly `scale` times finer than the target becomes `skip_ch` channels at the target size |
| SkipConnection.DecPartShape | model/u3_effnet/unet3plus.py:81-83 | a decoder map exactly `scale` times coarser, of the width the constructor expects, becomes `skip_ch` channels at the target size |
| SkipConnection.SkipPartsShape | model/u3_effnet/unet3plus.py:77-83 | every concatenated part is `skip_ch` channels at the target size, one per encoder and decoder map |
| SkipConnection.SkipForwardShape | model/u3_effnet/unet3plus.py:77-84 | the stage outputs `concat_ch` channels at the target size |
| Decoder.Reverse | model/u3_effnet/unet3plus.py:137 | `xs[::-1]` has the same length and entry `i` is `xs[n-1-i]` |
| Decoder.StageAt | model/u3_effnet/unet3plus.py:140-154 | the stage registered at position `ii`: Identity at 0, otherwise a skip connection over `en_channels[::-1][ii:]` with scales `2^0..2^(n-ii-1)`, `num_dec = ii` and the coarsest width as `bottom_dec_ch` |
| Decoder.DecoderSpec | model/u3_effnet/unet3plus.py:132-154 | the registry the constructor builds: one stage per encoder channel, in order |
| Decoder.NewDecoder | model/u3_effnet/unet3plus.py:131-154 | the loop registers one stage per encoder channel, as the decoder description says |
| Decoder.NewStage | model/u3_effnet/unet3plus.py:140-154 | stage 0 is the identity; stage `ii` is a skip connection over `en_channels[ii:]` with scales `2^0..`, `num_dec = ii` and the coarsest width as `bottom_dec_ch` |
| Decoder.StageWidths | model/u3_effnet/unet3plus.py:140-154 | one stage per encoder map, the first the identity, every other a fusion of width `skip_ch * n` |
| Decoder.StageOut | model/u3_effnet/unet3plus.py:160-165 | one stage call: stage 0 returns the coarsest reversed encoder map, stage `ii` its skip connection on the reversed maps from `ii` and the outputs so far; a stage of the other kind or no encoder map fails |
| Decoder.Chain | model/u3_effnet/unet3plus.py:157-165 | the `dec_map_list` loop: after `k` steps, `k` outputs, step `ii` fed all earlier ones; the first failing step fails the whole |
| Decoder.StageStep | model/u3_effnet/unet3plus.py:160-165 | step `ii` of that loop for a decoder registry: its stage `ii` on the reversed encoder maps; no stage past the last |
| Decoder.ChainStep | model/u3_effnet/unet3plus.py:157-165 | each output of the chain is its step applied to exactly the outputs before it |
| Decoder.ChainOf | model/u3_effnet/unet3plus.py:157-165 | conversely, a list whose every entry is its step on the earlier entries is the chain |
| Decoder.ChainNone | model/u3_effnet/unet3plus.py:157-165 | once a step fails, every longer chain fails |
| Decoder.DecoderOut | model/u3_effnet/unet3plus.py:156-167 | `forward`: reverse the encoder maps, then one output per stage, stage `ii` seeing the outputs before it; any failing stage fails the whole |
| Decoder.DecoderOutStep | model/u3_effnet/unet3plus.py:156-167 | `forward` gives one output per stage, stage `ii` seeing the reversed encoder maps and the outputs so far |
| Decoder.RunChain | model/u3_effnet/unet3plus.py:157-165 | the loop growing `dec_map_list` computes the chain |
| Decoder.DecoderForward | model/u3_effnet/unet3plus.py:156-167 | `forward` computes the decoder's outputs on the reversed maps |
| Decoder.StageEnMaps | model/u3_effnet/unet3plus.py:146-148 | the encoder maps stage `ii` receives sit exactly `2^t` times finer than its target, as its `en_scales` say |
| Decoder.StageDecMaps | model/u3_effnet/unet3plus.py:146-150 | the earlier decoder outputs sit exactly their default scale times coarser than stage `ii`'s target |
| Decoder.ReversedPyramid | model/u3_effnet/unet3plus.py:158 | reversed, encoder map `r` has size `2^r` times the coarsest |
| Decoder.StageOutShape | model/u3_effnet/unet3plus.py:160-165 | fed the expected earlier outputs, stage `ii` gives the expected output `ii` |
| Decoder.FusionStageShape | model/u3_effnet/unet3plus.py:165 | a fusion stage fed the expected maps emits `skip_ch * n` channels at its target size |
| Decoder.FusionInputs | model/u3_effnet/unet3plus.py:146-153 | the maps stage `ii` receives meet the skip connection's shape conditions |
| Decoder.FusionForward | model/u3_effnet/unet3plus.py:146-154 | the skip connection registered for stage `ii` emits `skip_ch * n` channels at the target size |
| Decoder.StageInputs | model/u3_effnet/unet3plus.py:158-165 | on an encoder pyramid, stage `ii >= 1` receives the encoder and decoder maps its fusion expects |
| Decoder.StageStepFits | model/u3_effnet/unet3plus.py:160-165 | each stage of the built decoder turns the expected earlier outputs into the expected next one |
| Decoder.DecoderOutExpected | model/u3_effnet/unet3plus.py:156-167 | on a pyramid, the decoder returns the coarsest map, then `skip_ch*n` maps doubling in size |
| Decoder.DecoderShapes | model/u3_effnet/unet3plus.py:156-167 | on a pyramid the decoder succeeds: n outputs, the first the coarsest encoder map, output `ii` `skip_ch*n` channels at `2^ii` times the coarsest size, the last at the finest map's size |
| Decoder.ExpectedOutputs | model/u3_effnet/unet3plus.py:156-167 | the expected outputs have the shapes `DecoderOutputs` describes |
| Encoder.SelectBackbone | model/u3_effnet/unet3plus.py:91-102 | exactly the three EfficientNet names select their table entry; any other name raises `Unsupported backbone : <name>` |
| Encoder.CompressSpec | model/u3_effnet/unet3plus.py:110-115 | the compress layers: one per zipped (fe_ch, ch) pair, Identity when equal and a 1x1 conv otherwise |
| Encoder.CompressLayer | model/u3_effnet/unet3plus.py:111-115 | one compress layer: a 1x1 conv from `fe_ch` to `ch` when they differ, Identity otherwise |
| Encoder.BuildCompress | model/u3_effnet/unet3plus.py:110-115 | one compress layer per zipped (fe_ch, ch) pair: Identity when equal, a 1x1 conv otherwise |
| Encoder.CompressSpecPrefix | model/u3_effnet/unet3plus.py:111 | `zip` stops at the shorter list, so only the first `min` pairs matter |
| Encoder.CompressShape | model/u3_effnet/unet3plus.py:111-115 | compress layer `i` is the identity iff the widths agree, and maps `fe_ch` channels to `ch` at the same size |
| Encoder.NewEncoder | model/u3_effnet/unet3plus.py:88-116 | the constructor fails exactly when the dispatch fails, with its message; otherwise it holds the compress layers of the selected entry and the given `channels` |
| Encoder.LayerKey | model/u3_effnet/unet3plus.py:125 | the key `layer{ii}` |
| Encoder.LayerKeyInjective | model/u3_effnet/unet3plus.py:125 | `layer{a} == layer{b}` iff `a == b` |
| Encoder.EncoderOut | model/u3_effnet/unet3plus.py:118-128 | `forward` after the backbone: feature `layer{ii}` through compress layer `ii` for each layer in order, failing on a missing key or a failing layer |
| Encoder.EncoderForward | model/u3_effnet/unet3plus.py:118-128 | the forward loop computes the compressed features, failing on a missing key or a failing layer |
| Encoder.EncoderOutFails | model/u3_effnet/unet3plus.py:123-126 | once a prefix of the loop fails, the whole forward fails |
| Encoder.EncoderOutShapes | model/u3_effnet/unet3plus.py:118-128 | with every `layer{ii}` present at its configured width, the encoder returns one map per feature with width `ch` and the feature's size |
| Encoder.EncoderOutMissing | model/u3_effnet/unet3plus.py:125 | a missing `layer{ii}` key makes `forward` fail |
| UNet3Plus.ClsBranch | model/u3_effnet/unet3plus.py:192-197 | the class branch: dropout, 1x1 conv from `channels[-1]` to 2, global max-pool, sigmoid |
| UNet3Plus.Head | model/u3_effnet/unet3plus.py:199-204 | the head: a stride-2 transposed conv when `transpose_final`, else a 3x3 conv with padding 1, from `decoder_ch` to `num_classes` |
| UNet3Plus.AuxConv | model/u3_effnet/unet3plus.py:211-212 | auxiliary head `ii`: a 3x3 conv to `num_classes` reading `channels[-1]` at index 0 and `decoder_ch` elsewhere |
| UNet3Plus.AuxHeadsSpec | model/u3_effnet/unet3plus.py:207-213 | one head per index of `np.arange(nd-aux_losses-1, nd-1)`, reading `channels[-1]` at index 0 and `decoder_ch` elsewhere |
| UNet3Plus.AuxIndicesInRange | model/u3_effnet/unet3plus.py:207-212 | every auxiliary index lies in `0 .. nd-2` iff `aux_losses < nd`; otherwise a head is built for a negative index |
| UNet3Plus.AuxHeadsReached | model/u3_effnet/unet3plus.py:209-232 | a walked index `0 <= ii < nd-1` has a head iff `ii >= nd-1-aux_losses` |
| UNet3Plus.BuildAuxHeads | model/u3_effnet/unet3plus.py:207-213 | the loop registers one head per index of `np.arange(nd-aux_losses-1, nd-1)`, reading `channels[-1]` at index 0 and `decoder_ch` elsewhere |
| UNet3Plus.NewAuxHead | model/u3_effnet/unet3plus.py:207-215 | auxiliary heads exist iff `aux_losses > 0` |
| UNet3Plus.Assemble | model/u3_effnet/unet3plus.py:185-215 | the modules around an encoder: the decoder over `channels[1:]`, the class branch iff `use_cgm`, the head of width `skip_ch*nd`, the auxiliary heads iff `aux_losses > 0` |
| UNet3Plus.UNetSpec | model/u3_effnet/unet3plus.py:172-215 | the constructor: the given or default encoder (its dispatch error propagated), then the assembled model |
| UNet3Plus.AssembleUNet | model/u3_effnet/unet3plus.py:185-215 | the decoder over `channels[1:]`, the class branch iff `use_cgm`, the head and the auxiliary heads are registered as described |
| UNet3Plus.EncoderOf | model/u3_effnet/unet3plus.py:184 | the given encoder, or the default one built for `efficientnet-b5`, with its dispatch error |
| UNet3Plus.NewUNet | model/u3_effnet/unet3plus.py:172-215 | the constructor uses the given encoder or the default EfficientNet-B5 one, propagating its error, and builds the model description |
| UNet3Plus.Resize | model/u3_effnet/unet3plus.py:246-250 | the result has the input's channels at `h x w`, and is the input itself when it already has that size |
| UNet3Plus.AuxKey | model/u3_effnet/unet3plus.py:235 | the key `aux{ii}` |
| UNet3Plus.AuxKeyDistinct | model/u3_effnet/unet3plus.py:229-235 | `aux{ii}` keys are distinct from each other and from `out` and `cls` |
| UNet3Plus.AuxStep | model/u3_effnet/unet3plus.py:227-235 | one pass of the auxiliary loop: `cls` at index 0 when the branch exists, then `aux{ii}`, resized, when a head is registered for `ii`; a failing layer fails |
| UNet3Plus.AuxRun | model/u3_effnet/unet3plus.py:226-235 | the dictionary after the first `k` passes over `de_out[:-1]` |
| UNet3Plus.AuxRunNone | model/u3_effnet/unet3plus.py:226-235 | once a pass of the auxiliary loop fails, the loop fails |
| UNet3Plus.RunAux | model/u3_effnet/unet3plus.py:225-235 | the loop over `de_out[:-1]` computes the dictionary |
| UNet3Plus.Heads | model/u3_effnet/unet3plus.py:222-237 | `out` from the head on the last decoder output, resized; then, when auxiliary heads exist, the loop over the other outputs adding `cls` and `aux{ii}` |
| UNet3Plus.RunHeads | model/u3_effnet/unet3plus.py:222-237 | the head on the last output and the auxiliary loop compute the dictionary |
| UNet3Plus.UNetOut | model/u3_effnet/unet3plus.py:217-237 | `forward`: encoder, decoder, then the heads, failing where any of them fails |
| UNet3Plus.UNetForward | model/u3_effnet/unet3plus.py:217-237 | `forward` is the encoder, the decoder and the heads in turn |
| UNet3Plus.AuxKeys | model/u3_effnet/unet3plus.py:231-235 | the `aux{ii}` keys the first `k` passes add: one per registered index below `k` |
| UNet3Plus.AuxKeysMember | model/u3_effnet/unet3plus.py:231-235 | `aux{ii}` is among the keys of the first k passes iff `ii < k` and a head is registered for `ii` |
| UNet3Plus.AuxStepKeys | model/u3_effnet/unet3plus.py:227-235 | one pass adds `cls` at index 0 when the branch exists, and `aux{ii}` when a head is registered |
| UNet3Plus.AuxRunKeys | model/u3_effnet/unet3plus.py:225-235 | after k passes the keys are the base keys, `cls` when index 0 was seen with a branch, and `aux{ii}` for the registered `ii < k` |
| UNet3Plus.HeadsKeys | model/u3_effnet/unet3plus.py:222-237 | the keys are `out`, `cls` iff there are auxiliary heads, a branch and at least two outputs, and the reached `aux{ii}` |
| UNet3Plus.UNetKeys | model/u3_effnet/unet3plus.py:217-237 | the prediction dictionary has exactly those keys, with `n` the number of decoder stages |
| UNet3Plus.HeadsKeyPresent | model/u3_effnet/unet3plus.py:231-235 | `aux{ii}` is present iff auxiliary heads exist, `ii < n-1` and a head is registered for `ii` |
| UNet3Plus.AuxKeyPresent | model/u3_effnet/unet3plus.py:231-235 | the same for `forward`'s dictionary |
| UNet3Plus.ClsBranchShape | model/u3_effnet/unet3plus.py:192-197 | the class branch turns a `channels[-1]`-wide map into 2 scores |
| UNet3Plus.HeadShape | model/u3_effnet/unet3plus.py:199-204 | the head emits `num_classes` channels, at twice the size with the transposed conv and at the same size otherwise |
| UNet3Plus.AuxRunShapes | model/u3_effnet/unet3plus.py:226-235 | on outputs of the widths the heads expect, the auxiliary loop succeeds and keeps every entry well shaped |
| UNet3Plus.EncoderPyramidOut | model/u3_effnet/unet3plus.py:118-128 | the encoder turns a backbone pyramid into a pyramid of the configured widths |
| UNet3Plus.OutputsFitShapes | model/u3_effnet/unet3plus.py:219 | the decoder outputs have the widths their consumers expect: `channels[-1]` for the first, `decoder_ch` for the others |
| UNet3Plus.PipelineShapes | model/u3_effnet/unet3plus.py:219 | encoder then decoder on a backbone pyramid succeed, with `nd` outputs of the expected widths |
| UNet3Plus.HeadsShapes | model/u3_effnet/unet3plus.py:222-237 | the head and auxiliary loop succeed, `out` is present, and every score map is `num_classes x h x w` with `cls` holding 2 scores |
| UNet3Plus.UNetShapes | model/u3_effnet/unet3plus.py:172-237 | the constructor succeeds, and `forward` on a backbone pyramid succeeds with `out` and every score map `num_classes x h x w` |
| Trainer.ToHms | archive/trainer_hook.py:18-22 | the hours, minutes and seconds add back up to the input, with minutes and seconds below 60 |
| Trainer.ToHmsUnique | archive/trainer_hook.py:20-22 | that split is the only one with minutes and seconds below 60 |
| Trainer.FormatHms | archive/trainer_hook.py:18-23 | `convert_seconds_to_hms`: the three divmod fields, each rendered `{:02d}`, joined by colons |
| Trainer.HmsRoundTrip | archive/trainer_hook.py:18-23 | the rendering is `h..h:mm:ss` with at least two hour digits, and parsing it back gives the input |
| Trainer.Validates | archive/trainer_hook.py:100 | validation after 0-based epoch `e` iff `(e + 1) % val_interval == 0` |
| Trainer.ModAbs | archive/trainer_hook.py:100 | for a negative interval, the divisibility test agrees with the one for its absolute value |
| Trainer.ValidatesIff | archive/trainer_hook.py:100 | validation runs after epoch `e` iff `e+1` is a positive multiple of `abs(val_interval)` |
| Trainer.Train | archive/trainer_hook.py:26-152 | the epoch loop computes the state `RunEpochs` describes; with at least one epoch it fails exactly when the training loader is empty (the average at line 63 divides by 0), the interval is 0 (the test at line 100 divides by it), or the validation loader is empty and some epoch validates (`torch.cat` of nothing at line 203) |
| Trainer.Improve | archive/trainer_hook.py:129-137 | on a strictly greater Dice: the best moves up, the previous checkpoint is removed if set and present, and the new one is written; otherwise nothing changes |
| Trainer.EpochStep | archive/trainer_hook.py:67-137 | one epoch: its log entry (number, remaining epochs, hook buffer, whether it validates), then the improvement when it validates |
| Trainer.RunEpochs | archive/trainer_hook.py:29-146 | the state after the first `k` epochs, from best 0 and no checkpoint path |
| Trainer.RunLog | archive/trainer_hook.py:33-100 | one log entry per epoch, numbered from 1, with the remaining epochs, validation on the scheduled epochs, and the hook given the best Dice from before that epoch |
| Trainer.LastEpochRemaining | archive/trainer_hook.py:67-69 | the last epoch reports 0 epochs remaining |
| Trainer.BestChangesOnImprovement | archive/trainer_hook.py:129-137 | an epoch changes the best iff it validates with a strictly greater Dice; the best and path then follow that Dice, and otherwise path and files stay |
| Trainer.BestMonotone | archive/trainer_hook.py:129-131 | the best Dice never decreases from one epoch to the next |
| Trainer.BestIsMax | archive/trainer_hook.py:29-152 | the returned best is at least 0 and every validated Dice, and is 0 or one of them |
| Trainer.CheckpointInvariant | archive/trainer_hook.py:129-137 | the files are the initial ones not overwritten plus at most one checkpoint of this run: the one for the current best, present iff the best is above 0 |
| Validation.SamplesOf | archive/trainer_hook.py:194-201 | the samples appended batch after batch, one per image, carrying its mean Dice |
| Validation.BatchSamples | archive/trainer_hook.py:194-201 | the samples of one batch: image `i` with its mean Dice, in order |
| Validation.SamplesOfLength | archive/trainer_hook.py:194-201 | one sample per image |
| Validation.SamplesOfIndex | archive/trainer_hook.py:194-201 | image `i` of batch `b` is the sample after all images of earlier batches, carrying its Dice |
| Validation.Insert | archive/trainer_hook.py:218 | one insertion step of the stable sort: before the first sample whose Dice is not below its own |
| Validation.InsertMultiset | archive/trainer_hook.py:218 | inserting adds exactly the element |
| Validation.InsertSorted | archive/trainer_hook.py:218 | inserting into a sorted list keeps it sorted |
| Validation.InsertWithDice | archive/trainer_hook.py:218 | the inserted sample goes before the other samples of its Dice value, which keep their order |
| Validation.SortByDice | archive/trainer_hook.py:218 | `sorted(samples, key=...)` as an insertion sort that puts each sample before the first of no smaller Dice |
| Validation.SortByDiceCorrect | archive/trainer_hook.py:218 | the sort is ascending, a permutation, and stable |
| Validation.SliceStop | archive/trainer_hook.py:218 | `[:k]` keeps `min(k, n)` for `k >= 0` and `max(n+k, 0)` for a negative `k` |
| Validation.SortByDiceLength | archive/trainer_hook.py:218 | the sort keeps the length |
| Validation.WorstSamples | archive/trainer_hook.py:218 | the sorted samples cut at Python's `[:num_worst_samples]` |
| Validation.WorstSamplesCorrect | archive/trainer_hook.py:218 | the worst list has the slice's length, is ascending, comes from the samples, holds no Dice above any sample left out, and keeps encounter order among equal Dice |
| Validation.SortedSplit | archive/trainer_hook.py:218 | a cut sorted list has a sorted front, no front element above a back element, and front plus back is the whole |
| Validation.LossSum | archive/trainer_hook.py:179 | `total_loss` after `b` batches: the batch losses summed in batch order |
| Validation.ClassSum | archive/trainer_hook.py:183 | `class_losses[c]` after `b` batches: class `c`'s batch losses summed in order |
| Validation.Validate | archive/trainer_hook.py:155-220 | the loop averages the losses over the batches, keeps the class losses per class, selects the worst samples, and fails iff there are no batches |
| Validation.AccumulateClasses | archive/trainer_hook.py:182-183 | each class's running loss grows by that batch's class loss, in place |

## Left out

- Tensor values, weights, initialisation (`weight_init`), dropout rates, bilinear interpolation and every numeric result: only shapes are modelled, and the batch dimension is dropped.
- The EfficientNet backbones, `efficientnet_cfg` and `create_feature_extractor`: these names are not defined in `unet3plus.py`. The configuration table becomes a map parameter, and the backbone's feature dictionary becomes a parameter of `forward`.
- `have_obj` (the `argmax` of the class scores, multiplied into each auxiliary input): it does not change a shape once the batch dimension is dropped. With a batch of more than one image, a tensor of shape `(B,)` broadcasts against the last (width) axis, so this product fails unless the width equals the batch size or is 1. That failure is not modelled.
- `dotProduct` and the `__main__` block: unused by the core.
- Auxiliary heads are keyed by their integer index rather than the string `aux_head{ii}`. Python renders distinct integers as distinct strings, so membership tests are unaffected.
- UNet3Plus.UNetSpec: an empty `channels` list yields the error "negative dimension" in every configuration. The source differs: with `use_cgm` it raises IndexError at `channels[-1]` (line 194); without it and with `skip_ch > 0` the head is built with the negative width `decoder_ch` and raises; without it and with `skip_ch == 0`, `decoder_ch` is 0, every layer is built with zero channels and the constructor returns, and only `forward` fails, with an IndexError at `de_out[-1]` (line 222). The model does not represent that degenerate model (it counts decoder stages as a natural number).
- UNet3Plus.UNetShapes: proved only for at least two decoder stages (`len(channels) >= 3`), only on a backbone pyramid whose sizes are exact powers of two times the coarsest, only when the backbone returns exactly one feature per decoder stage (`len(fe_channels) == len(channels) - 1`), and only when the encoder's compress layers are those built from `fe_channels` to `channels[1:]`, that is, when the configuration table's target widths equal the model's `channels[1:]`.
- Decoder.DecoderShapes: proved only on a pyramid of exact power-of-two sizes. With other sizes, ceil-mode pooling and upsampling can disagree and the concatenation fails. The model captures that failure (`Concat` returns `None`), but no theorem is stated about it.
- Trainer.ToHms: takes whole seconds. The source takes a float, but `int()` of each field gives the same fields as the whole part of a non-negative number of seconds.
- Trainer.CheckpointInvariant: assumes checkpoint paths are non-empty, as `os.path.join(save_dir, ...)` makes them.
- The training and validation steps themselves: the criterion, `backward`, the optimizer, `dice_coef` and the average Dice over classes. The validation Dice of each epoch and each image's mean Dice are parameters. Losses are reals summed in batch order.
- `scheduler.step()`: `scheduler` is not defined in `trainer_hook.py`, so this call would raise NameError on the first validation. The model leaves the call out.
- Logging and side effects: `wandb`, `tqdm`, `print`, `matplotlib`, the learning rate in the metrics, the per-class training losses in the metrics dictionary, wall-clock time (epoch times are not modelled, only the remaining-epoch count), `torch.save` and `os.remove` (modelled as a set of file paths), and `set_seed`.
- Checkpoint naming (`best_dice_{:.4f}.pt`): a function parameter, since four-decimal float formatting is not modelled.
- NaN Dice values: reals have no NaN, and Python's sort with NaN keys is not modelled.
