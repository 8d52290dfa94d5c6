# vkDOOM3 renderer core, modelled in Dafny

This project models the renderer of vkDOOM3, the Vulkan/OpenGL port of the
Doom 3 BFG engine, and proves properties of that model. Each core source file
becomes one Dafny module with the same name. Bits.dfy holds the shared
integer and option helpers.

- **Common**: the frame/millisecond conversions, with 32-bit narrowing.
- **Lib**: idLib byte- and bit-order swapping, six-bit packing and the warning list.
- **AllocatorVK**: the Vulkan device-memory allocator.
  - Memory-type choice and buffer-image granularity.
  - First-fit chunk lists per block, with splitting and coalescing.
  - The per-frame garbage ring.
- **RenderSystem**: the per-frame bump allocator, the render-command chain, the render-crop stack, small-character text and font registration.
- **GuiModel**: the GUI batcher that packs 2D triangles into surfaces.
- **FrontendMain**: the draw-surface sort and the light-list reordering.
- **FrontendSubview**: remote, mirror and x-ray subviews.
- **GLState**: the 64-bit render-state word.
- **ImageLoad / ImageVK**: image options, sizes, generated names and scratch uploads; Vulkan formats, samplers, staging and the image garbage ring.
- **RenderBackend, RenderBackendGL, RenderBackendVK**: the display-mode list, the depth-prepass split, and the GL and Vulkan state caches and device choices.
- **RenderDebug / RenderDebugGL**: debug primitives, screenshot naming and the debug passes that compute before they draw.
- **RenderProgs, RenderProgsGL, RenderProgsVK**: the uniform table, the Cg-to-GLSL rewriter and its uniform-file round trip, and the GL and Vulkan program tables.
- **RenderWorld**: the entity and light def tables, the area reference lists, the interaction table, the decal and overlay slots, and the BSP walks.
- **RenderWorldLoad / RenderWorldIslands**: map-load construction of the area tree, the inter-area portals, the initial portal states, and island labelling.
- **RenderWorldPortals**: the portal graph.
  - Doors opening and closing, and the connectivity numbers.
  - The per-view connected-area and portal floods.
  - The per-view light and entity caches.

Objects whose fields the engine updates in place are Dafny classes whose
methods carry `modifies` clauses; pure computations are functions with lemmas.
Loops become methods with invariants, proved against specification functions.
Each row below names the member whose contract states the property.

## Model

| member | source | states |
|---|---|---|
| Common.FrameToMsecIsFloor | neo/framework/Common.h:47-49 | the start msec of a frame is the floor of frame * numerator / denominator, bracketed between two consecutive multiples of the denominator |
| Common.MsecToFrameFloorIsLastStartedFrame | neo/framework/Common.h:51-53 | despite adding denominator - 1, the "round down" conversion yields the last frame whose start msec is at or before msec |
| Common.MsecToFrameCeilRoundsUp | neo/framework/Common.h:55-57 | the "round up" conversion yields the least frame c with c * numerator >= msec * denominator |
| Common.MsecAlignToFrameIsNextFrameStart | neo/framework/Common.h:59-61 | the aligned msec is the start of frame MSEC_TO_FRAME_CEIL(msec), at or after msec, and the frame before starts before msec |
| Common.FloorValue | neo/framework/Common.h:51-53 | inside the 32-bit range the (int) narrowing leaves the floor formula's quotient unchanged |
| Common.CeilValue | neo/framework/Common.h:55-57 | inside the 32-bit range the (int) narrowing leaves the ceiling formula's quotient unchanged |
| Common.MsecToFrameMonotone | neo/framework/Common.h:51-57 | both msec-to-frame conversions are non-decreasing in msec |
| Common.MsecAlignToFrameMonotone | neo/framework/Common.h:59-61 | frame alignment is non-decreasing in msec |
| Common.FrameToMsecMonotone | neo/framework/Common.h:47-49 | the frame start msec is non-negative and non-decreasing in the frame number |
| Lib.ShortSwap | neo/idlib/Lib.cpp:592-599 | the low byte of the result is the high byte of the input and the high byte is the low byte |
| Lib.ShortSwapInvolution | neo/idlib/Lib.cpp:592-599 | swapping a 16-bit value twice gives it back |
| Lib.LongSwap | neo/idlib/Lib.cpp:615-624 | byte k of the result is byte 3 - k of the input, for each of the four bytes |
| Lib.LongSwapInvolution | neo/idlib/Lib.cpp:615-624 | swapping a 32-bit value twice gives it back |
| Lib.SwapInitDecodesShort | neo/idlib/Lib.cpp:821-852 | on either host byte order, BigShort reads two stored bytes most significant first and LittleShort least significant first |
| Lib.SwapInitDecodesLong | neo/idlib/Lib.cpp:821-852 | on either host byte order, BigLong and LittleLong read four stored bytes in big- and little-endian order |
| Lib.SwapInitPairsOneSwap | neo/idlib/Lib.cpp:821-852 | of each Big/Little pair exactly one is the swapping routine, the bit-field routine swaps with LittleRevBytes, and the little sixtet routines are chosen exactly on little-endian hosts |
| Lib.SwapInward | neo/idlib/Lib.cpp:691-699 | the inner p/q exchange loop reverses the bytes between p and q and leaves p half the window further on |
| Lib.ExchangeXor | neo/idlib/Lib.cpp:684-688 | the three-XOR exchange swaps the two bytes and changes nothing else |
| Lib.ExchangePairs | neo/idlib/Lib.cpp:682-691 | the two-byte special case swaps the bytes of each of elcount pairs |
| Lib.SwapElements | neo/idlib/Lib.cpp:693-705 | the general loop reverses elcount windows of elsize bytes, each starting AsWrittenStride(elsize) bytes after the last |
| Lib.RevBytesSwap | neo/idlib/Lib.cpp:678-706 | the buffer ends as the windows reversal with the as-written stride, for every element size |
| Lib.AsWrittenStride | neo/idlib/Lib.cpp:693-705 | the pointer advance per element equals elsize exactly when elsize is even |
| Lib.RevBytesSwapFrame | neo/idlib/Lib.cpp:678-706 | bytes at or beyond elsize * elcount are left alone |
| Lib.RevBytesSwapEvenSizeCorrect | neo/idlib/Lib.cpp:678-706 | for even (or unit) element sizes byte i of element j ends at the mirrored position elsize - 1 - i of the same element |
| Lib.RevBytesSwapOddSizeMisaligned | neo/idlib/Lib.cpp:693-705 | with two 3-byte elements the as-written routine yields [3,2,5,4,1,6] where per-element reversal gives [3,2,1,6,5,4] |
| Lib.RevBytesPerElementAt | neo/idlib/Lib.cpp:678-706 | the intended per-element reversal maps byte i of element j to byte elsize - 1 - i of element j |
| Lib.RevWindowsOutside | neo/idlib/Lib.cpp:678-706 | reversing windows changes no byte outside the windows |
| Lib.Rev8 | neo/idlib/Lib.cpp:708-720 | the intended per-byte bit reversal: bit j of the result is bit 7 - j of the input |
| Lib.Rev8Involution | neo/idlib/Lib.cpp:708-720 | reversing the bits of a byte twice gives it back |
| Lib.BitFieldByte | neo/idlib/Lib.cpp:729-736 | the bit loop as written yields the reversed byte shifted left by one |
| Lib.BitFieldByteDropsBitZero | neo/idlib/Lib.cpp:729-736 | the byte 0x01 comes out as 0x00 although its reversal is 0x80 |
| Lib.RevBitFieldSwap | neo/idlib/Lib.cpp:721-738 | the element's bytes are reversed, then each of its elsize bytes passes through the bit loop; the rest is untouched |
| Lib.SixtetsForIntLittle | neo/idlib/Lib.cpp:763-769 | four values, each below 64 |
| Lib.SixtetsLittleAreGroupBits | neo/idlib/Lib.cpp:763-769 | the four values are the six-bit fields of the 24-bit group b0 b1 b2, from the top |
| Lib.SixtetsLittleRoundTrip | neo/idlib/Lib.cpp:763-799 | IntForSixtetsLittle of SixtetsForIntLittle(src) is src with its top byte cleared |
| Lib.IntForSixtetsLittleRoundTrip | neo/idlib/Lib.cpp:763-799 | four values below 64 survive packing and unpacking |
| Lib.PackedBytes | neo/idlib/Lib.cpp:789-799 | the three bytes written by IntForSixtetsLittle, field by field |
| Lib.SixtetsBig | neo/idlib/Lib.cpp:777-782 | four values, each below 64 |
| Lib.SixtetsForIntBig | neo/idlib/Lib.cpp:777-782 | the shifting loop emits the six-bit fields of src least significant first |
| Lib.SixtetPass | neo/idlib/Lib.cpp:778-781 | pass i of the loop emits the i-th six-bit field of its input, and shifting that input right by six gives the next pass its input |
| Lib.SixtetsBigRoundTrip | neo/idlib/Lib.cpp:777-814 | IntForSixtetsBig of SixtetsForIntBig(src) is src mod 2^24 |
| Lib.PackBigFields | neo/idlib/Lib.cpp:807-814 | field k of the packed value is the k-th input |
| Lib.IntForSixtetsBigRoundTrip | neo/idlib/Lib.cpp:777-814 | four values below 64 survive packing and unpacking |
| Lib.LibState.constructor | neo/idlib/Lib.cpp:54 | no warnings, no error in progress, error time and count zero |
| Lib.LibState.ClearWarnings | neo/idlib/Lib.cpp:354-357 | the warning list is emptied and the error state kept |
| Lib.LibState.Warning | neo/idlib/Lib.cpp:364-388 | the message is added only on the main thread, while fewer than 256 are held and when it is not already there; nothing else changes |
| Lib.LibState.Error | neo/idlib/Lib.cpp:244-311 | a recursive error after a fatal one quits; otherwise the error is fatal for fs_copyfiles, a recursive error or the fourth error within 100 ms of its predecessor, and the count resets after a pause |
| Lib.FourQuickErrorsAreFatal | neo/idlib/Lib.cpp:281-288 | three errors each within 100 ms are dropped and the fourth is fatal |
| AllocatorVK.FirstAcceptable | neo/renderer/Vulkan/Allocator_VK.cpp:84-98 | the index returned is the first memory type at or after the start whose bit is set and whose flags contain the required and preferred flags, or the type count when none is |
| AllocatorVK.MemoryTypeChoice | neo/renderer/Vulkan/Allocator_VK.cpp:59-115 | the chosen index is either UINT32_MAX or an allowed memory type that has every required property flag of the usage |
| AllocatorVK.MemoryTypeChoicePreference | neo/renderer/Vulkan/Allocator_VK.cpp:59-115 | the first allowed type having both the required and the preferred flags wins; failing that, the first allowed type with the required flags; failing that, UINT32_MAX |
| AllocatorVK.FindMemoryTypeIndex | neo/renderer/Vulkan/Allocator_VK.cpp:59-115 | the two scanning loops return exactly the specified memory type choice |
| AllocatorVK.PageStart | neo/renderer/Vulkan/Allocator_VK.cpp:230-233 | masking with ~(page - 1) gives the page-aligned address of the page that contains the offset |
| AllocatorVK.IsOnSamePageIffNoBoundary | neo/renderer/Vulkan/Allocator_VK.cpp:224-236 | resource A's last byte and resource B's first byte lie on the same page exactly when B's page starts before A ends |
| AllocatorVK.HasGranularityConflict | neo/renderer/Vulkan/Allocator_VK.cpp:245-268 | two allocation types conflict exactly when one may be linear and the other may be optimal |
| AllocatorVK.GranularityConflictFacts | neo/renderer/Vulkan/Allocator_VK.cpp:245-268 | the conflict relation is symmetric, a free chunk never conflicts, and a buffer conflicts only with images of unknown or optimal tiling |
| AllocatorVK.Placement | neo/renderer/Vulkan/Allocator_VK.cpp:304-312 | the aligned offset of a candidate chunk is never before the chunk's own offset |
| AllocatorVK.SearchFrom | neo/renderer/Vulkan/Allocator_VK.cpp:295-336 | the chunk walk chooses the first usable chunk, with its aligned offset, and reports no chunk only when none after the start is usable |
| AllocatorVK.FindChunk | neo/renderer/Vulkan/Allocator_VK.cpp:384-389 | the search for an allocation id stops at the first chunk carrying that id, or past the end when no chunk does |
| AllocatorVK.InitialBlockValid | neo/renderer/Vulkan/Allocator_VK.cpp:174-182 | a freshly initialised block, one free chunk covering the whole block, satisfies the block invariant |
| AllocatorVK.BlockAllocateIsFirstFit | neo/renderer/Vulkan/Allocator_VK.cpp:275-376 | an allocation is rejected when the free size is too small or no chunk is usable; otherwise it takes the first usable chunk, at the aligned offset, and the allocated size grows by padding plus size |
| AllocatorVK.PlacementAligned | neo/renderer/Vulkan/Allocator_VK.cpp:304-312 | when the granularity and the alignment divide one another, the placement offset is a multiple of the alignment |
| AllocatorVK.AllocationRespectsGranularity | neo/renderer/Vulkan/Allocator_VK.cpp:306-333 | a placed allocation never shares a page with a conflicting neighbour, before or after it |
| AllocatorVK.BlockAllocatePreservesValid | neo/renderer/Vulkan/Allocator_VK.cpp:275-376 | a successful allocation keeps the chunks ordered, non-overlapping, with distinct ids and no two adjacent free chunks, and the allocated total consistent |
| AllocatorVK.PlacePreservesValid | neo/renderer/Vulkan/Allocator_VK.cpp:340-364 | splitting the chosen chunk into the used part and a free remainder keeps the block invariant |
| AllocatorVK.ReplaceValid | neo/renderer/Vulkan/Allocator_VK.cpp:340-364 | replacing one free chunk by a well-formed run of chunks with fresh ids inside its extent keeps the block invariant |
| AllocatorVK.MergeFreeIsCoalesced | neo/renderer/Vulkan/Allocator_VK.cpp:397-424 | freeing a chunk and merging it with free neighbours equals collapsing the window from the first to the last free neighbour into one free chunk |
| AllocatorVK.MergeWithPrevious | neo/renderer/Vulkan/Allocator_VK.cpp:399-411 | when the previous chunk is free the merged chunk starts at the previous chunk |
| AllocatorVK.MergeBothNeighbours | neo/renderer/Vulkan/Allocator_VK.cpp:399-424 | with both neighbours free the three chunks collapse into one |
| AllocatorVK.MergeBothShape | neo/renderer/Vulkan/Allocator_VK.cpp:399-424 | with both neighbours free the result keeps the previous chunk's id and offset and its size is the sum of the three sizes |
| AllocatorVK.MergePreviousOnly | neo/renderer/Vulkan/Allocator_VK.cpp:399-411 | with only the previous neighbour free, the freed chunk is absorbed by it and the next chunk is kept |
| AllocatorVK.MergeWithoutPrevious | neo/renderer/Vulkan/Allocator_VK.cpp:413-424 | when the previous chunk is not free the merged chunk starts at the freed chunk |
| AllocatorVK.CoalescePreservesValid | neo/renderer/Vulkan/Allocator_VK.cpp:397-426 | collapsing a maximal window of chunks into one free chunk keeps the block invariant with the allocated total reduced by the window's used size |
| AllocatorVK.BlockFreePreservesValid | neo/renderer/Vulkan/Allocator_VK.cpp:383-427 | freeing an allocation whose id and size match a used chunk keeps the block invariant |
| AllocatorVK.FreeAtPreservesValid | neo/renderer/Vulkan/Allocator_VK.cpp:395-426 | marking a used chunk free, merging it and subtracting its size keeps the block invariant |
| AllocatorVK.ExactFitRejected | neo/renderer/Vulkan/Allocator_VK.cpp:322-324 | because the test is `>=`, a request that would fill an empty block exactly is rejected |
| AllocatorVK.PaddingLeaksAsWritten | neo/renderer/Vulkan/Allocator_VK.cpp:361-426 | an allocation with alignment padding adds padding plus size to the allocated total but Free subtracts only the size, so after freeing everything the block still counts 48 bytes allocated and the free chunk lost the padding |
| AllocatorVK.CorrectedAllocatePreservesValid | neo/renderer/Vulkan/Allocator_VK.cpp:275-376 | the corrected allocation, which keeps the padding as its own free chunk, keeps chunks tiling the block and the allocated total equal to the used sizes |
| AllocatorVK.PlaceCorrectedPreservesValid | neo/renderer/Vulkan/Allocator_VK.cpp:340-364 | placing with the padding split off keeps the corrected invariant |
| AllocatorVK.CorrectedFreePreservesValid | neo/renderer/Vulkan/Allocator_VK.cpp:383-427 | the corrected free, which subtracts the chunk's own size, keeps the corrected invariant |
| AllocatorVK.CorrectedFreeAt | neo/renderer/Vulkan/Allocator_VK.cpp:395-426 | freeing one used chunk under the corrected rules keeps the chunks tiling and the allocated total exact |
| AllocatorVK.CorrectedFreeTiled | neo/renderer/Vulkan/Allocator_VK.cpp:397-424 | merging neighbours keeps chunks tiling the block without gaps |
| AllocatorVK.CorrectedFreeUsed | neo/renderer/Vulkan/Allocator_VK.cpp:426 | after the corrected free the allocated total equals the used sizes of the merged chunks |
| AllocatorVK.CorrectedEmptyBlockHasNothingAllocated | neo/renderer/Vulkan/Allocator_VK.cpp:588 | under the corrected rules a block whose chunks are all free has an allocated total of zero, so the allocator's release test is reached |
| AllocatorVK.CoalescedInUse | neo/renderer/Vulkan/Allocator_VK.cpp:395-424 | after merging, the set of ids in use is the old one minus the freed id, and ids stay distinct |
| AllocatorVK.BlockFreeInUse | neo/renderer/Vulkan/Allocator_VK.cpp:383-427 | Free removes exactly the freed id from the ids in use; an unknown id changes nothing |
| AllocatorVK.VulkanBlock.constructor | neo/renderer/Vulkan/Allocator_VK.cpp:130-138 | a new block records its memory type, size and usage, has no chunks, nothing allocated and next id 0 |
| AllocatorVK.VulkanBlock.Init | neo/renderer/Vulkan/Allocator_VK.cpp:154-183 | Init fails for a memory type index of UINT64_MAX or a failed device allocation and changes nothing; otherwise the block holds one free chunk of the whole size taking the next id |
| AllocatorVK.VulkanBlock.Allocate | neo/renderer/Vulkan/Allocator_VK.cpp:275-376 | the method succeeds exactly when the first-fit specification places the request, and then the chunks, total and allocation are those of the specification; the allocation lies inside the block and overlaps no other chunk, the layout is kept, and a failure changes nothing |
| AllocatorVK.VulkanBlock.SearchChunks | neo/renderer/Vulkan/Allocator_VK.cpp:295-336 | the chunk loop returns the same choice as the first-fit search function |
| AllocatorVK.VulkanBlock.Coalesce | neo/renderer/Vulkan/Allocator_VK.cpp:395-424 | the in-place marking and merging equals the merge specification |
| AllocatorVK.VulkanBlock.Free | neo/renderer/Vulkan/Allocator_VK.cpp:383-427 | the new block state is the free specification applied to the old one, including the warning path for an unknown id |
| AllocatorVK.Remove | neo/renderer/Vulkan/Allocator_VK.cpp:589 | removing a block from a list keeps every other block, and a duplicate-free list loses the block entirely |
| AllocatorVK.MegabytesToBytes | neo/renderer/Vulkan/Allocator_VK.cpp:493-494 | below 2048 MB the 32-bit product is the exact byte count |
| AllocatorVK.MegabytesWrapAt2048 | neo/renderer/Vulkan/Allocator_VK.cpp:493-494 | at 2048 MB the signed 32-bit product overflows and widens to 2^64 - 2^31 bytes |
| AllocatorVK.VulkanAllocator.constructor | neo/renderer/Vulkan/Allocator_VK.cpp:479-485 | a new allocator has garbage index 0, zero sizes and granularity, empty garbage lists and no blocks |
| AllocatorVK.VulkanAllocator.Init | neo/renderer/Vulkan/Allocator_VK.cpp:492-496 | the block sizes are the configured megabytes converted to bytes and the granularity is the device's, nothing else changes |
| AllocatorVK.VulkanAllocator.Allocate | neo/renderer/Vulkan/Allocator_VK.cpp:521-561 | a missing memory type or a failed new block is fatal; a result lies in a block of the chosen type and is what the block-level first fit gives on that block; every block listed before it refused the request, a fresh block is opened only when every listed block refused, every other block keeps its state, and no block is lost |
| AllocatorVK.VulkanAllocator.Free | neo/renderer/Vulkan/Allocator_VK.cpp:568-570 | freeing only appends the allocation to the current frame's garbage list, keeping the allocator invariant |
| AllocatorVK.VulkanAllocator.Release | neo/renderer/Vulkan/Allocator_VK.cpp:584-592 | releasing one garbage allocation removes its id from its block's ids in use and drops the block from its list once nothing is allocated in it |
| AllocatorVK.VulkanAllocator.EmptyGarbage | neo/renderer/Vulkan/Allocator_VK.cpp:577-596 | the garbage index advances modulo the frame count, that slot is emptied, every block named in it loses exactly the freed ids, and no block is added |
| AllocatorVK.LayoutDisjoint | neo/renderer/Vulkan/Allocator_VK.cpp:340-364 | in any block whose chunk list keeps its layout, every two chunks occupy disjoint byte ranges and every chunk lies inside the block |
| AllocatorVK.BlockAllocateKeepsLayout | neo/renderer/Vulkan/Allocator_VK.cpp:275-376 | a successful allocation of any type keeps the chunks ordered, inside the block and with distinct ids below the next id |
| AllocatorVK.PlacedAllocationDisjoint | neo/renderer/Vulkan/Allocator_VK.cpp:340-374 | the range an allocation hands out lies inside the block and overlaps no other chunk of the new list |
| AllocatorVK.BlockFreeKeepsLayout | neo/renderer/Vulkan/Allocator_VK.cpp:383-427 | freeing any id with any size keeps the chunks ordered, inside the block and with distinct ids |
| AllocatorVK.VulkanAllocator.AllocateFromList | neo/renderer/Vulkan/Allocator_VK.cpp:535-547 | the listed blocks of the memory type are tried in order: every block before the chosen one refused the request, the chosen one gives the block-level first fit and no other block changes; on failure every listed block refused and no block changes |
| AllocatorVK.VulkanAllocator.AllocateFromNewBlock | neo/renderer/Vulkan/Allocator_VK.cpp:549-560 | a new block is made only when its device memory can be had; it joins its type's list and an allocation from it is the first fit on a block holding one free chunk of the whole size; the blocks already listed keep their state and the allocator invariant holds afterwards |
| AllocatorVK.VulkanAllocator.AllocateIn | neo/renderer/Vulkan/Allocator_VK.cpp:544-546 | a listed block places the allocation exactly when the block allocation specification places it, recording its id, offset and size in that block; when it does not, the block is unchanged and no allocation is returned |
| AllocatorVK.VulkanAllocator.AppendBlock | neo/renderer/Vulkan/Allocator_VK.cpp:552-553 | the new block is appended to its memory type's list, the set of listed blocks grows by exactly that block, and the allocator invariant is kept |
| AllocatorVK.VulkanAllocator.ReleaseAll | neo/renderer/Vulkan/Allocator_VK.cpp:582-593 | after the loop over the slot every block named in it has lost exactly the ids freed into it, keeps its layout, and is off its list once nothing is allocated in it; no other listed block is dropped |
| AllocatorVK.VulkanAllocator.ReleaseNext | neo/renderer/Vulkan/Allocator_VK.cpp:585-591 | freeing the next garbage allocation takes exactly its id out of its block, leaves every other block of the slot unchanged, and drops the block from its list once nothing is allocated in it |
| RenderSystem.FrameAllocSize | neo/renderer/RenderSystem.cpp:840 | a request is rounded up to the next multiple of 128 bytes, by less than 128 |
| RenderSystem.BytesNeededForAlignment | neo/renderer/RenderSystem.cpp:890 | the alignment padding is between 1 and 128 bytes and brings the buffer's address to a multiple of 128 |
| RenderSystem.FrameData.constructor | neo/renderer/RenderSystem.cpp:911-922 | a new frame buffer starts its counter after the alignment padding, with no high-water mark and no commands |
| RenderSystem.FrameData.ZeroCacheLine | neo/renderer/RenderSystem.cpp:851-853 | one cache line at the given offset is zeroed and every other byte is kept |
| RenderSystem.FrameData.FrameAlloc | neo/renderer/RenderSystem.cpp:834-856 | the counter grows by the rounded size; the call fails exactly when the new end passes MAX_FRAME_MEMORY; on success the block starts at the old end, its address is 128-aligned, its bytes are zero and no other byte changes |
| RenderSystem.FrameData.RecordHighWater | neo/renderer/RenderSystem.cpp:875-877 | the high-water mark becomes the larger of itself and the bytes allocated this frame |
| RenderSystem.FrameData.Restart | neo/renderer/RenderSystem.cpp:889-904 | the counter restarts after the alignment padding plus one command, and the chain is a single RC_NOP placed right after the padding |
| RenderSystem.AlignedAdvance | neo/renderer/RenderSystem.cpp:840-848 | advancing an aligned address by an aligned size keeps it aligned, so every frame allocation is 128-aligned |
| RenderSystem.CropOf | neo/renderer/RenderSystem.cpp:1522-1534 | the new crop keeps the previous crop's left and bottom edges and has exactly the requested width and height |
| RenderSystem.CropIndexAsWritten | neo/renderer/RenderSystem.cpp:1512-1535 | as written, a crop with positive sizes always moves the crop index up by one, with no bound test |
| RenderSystem.RepeatCropAsWrittenAdds | neo/renderer/RenderSystem.cpp:1524 | n crops without an UnCrop raise the index by n |
| RenderSystem.CropOverrunsAsWritten | neo/renderer/RenderSystem.cpp:1524-1526 | MAX_RENDER_CROPS nested crops drive the index to MAX_RENDER_CROPS, one past the end of the crop array |
| RenderSystem.Byte | neo/renderer/RenderSystem.cpp:1174 | `ch &= 255` yields the value between 0 and 255 congruent to ch modulo 256 |
| RenderSystem.SmallChar | neo/renderer/RenderSystem.cpp:1169-1195 | a space or a character above the screen draws nothing; otherwise an 8 by 16 quad at (x, y) whose row and column in the 16 by 16 character sheet spell the character's byte |
| RenderSystem.DrawSmallStringExt | neo/renderer/RenderSystem.cpp:1207-1235 | the emitted operations are the given colour, then the string's character and colour operations, then white |
| RenderSystem.ForcedStringSetsNoColor | neo/renderer/RenderSystem.cpp:1214-1226 | with forceColor set, colour escapes emit no colour change |
| RenderSystem.StringOpsOnGrid | neo/renderer/RenderSystem.cpp:1213-1233 | every character quad is on the text's row and on an 8-pixel grid inside the string's extent |
| RenderSystem.StripFontsDir | neo/renderer/RenderSystem.cpp:770 | removing every "fonts/" never lengthens the name |
| RenderSystem.StripFontsDirKeepsPlainNames | neo/renderer/RenderSystem.cpp:770 | a name containing no "fonts/" is kept unchanged |
| RenderSystem.FindFont | neo/renderer/RenderSystem.cpp:771-776 | the search returns the first font whose name equals the request ignoring case, and none exactly when no font does |
| RenderSystem.FindFontAfterAppend | neo/renderer/RenderSystem.cpp:777-780 | once a new font is appended, any later request equal to it ignoring case finds that new font |
| RenderSystem.RenderSystemLocal.constructor | neo/renderer/RenderSystem.cpp:911-922 | after frame data initialisation, frame buffer 1 is current with a single RC_NOP, the crop index and frame count are zero and no font is registered |
| RenderSystem.RenderSystemLocal.ToggleSmpFrame | neo/renderer/RenderSystem.cpp:873-905 | the finished buffer's high-water mark is updated; the uint32 frame number moves on and selects the next buffer, whose counter and chain restart with one RC_NOP; nothing else changes |
| RenderSystem.RenderSystemLocal.GetCommandBuffer | neo/renderer/RenderSystem.cpp:946-956 | a successful call appends a new command at the old end of frame memory to the chain; a failed one leaves the chain as it was |
| RenderSystem.RenderSystemLocal.CropRenderSize | neo/renderer/RenderSystem.cpp:1512-1535 | uninitialised: ignored; the push succeeds exactly when the sizes are at least 1 and (corrected) the crop stack has room; bad sizes or a full stack: error with no change; otherwise the index moves up and the new top is the crop of the previous one |
| RenderSystem.RenderSystemLocal.UnCrop | neo/renderer/RenderSystem.cpp:1541-1554 | uninitialised: ignored; an index below 1 is an error; otherwise the crop index drops by one |
| RenderSystem.RenderSystemLocal.FinishCommandBuffers | neo/renderer/RenderSystem.cpp:1384-1441 | uninitialised: no command list is returned and nothing changes; otherwise the finished frame's command list is returned, the frames toggle, the crop stack resets to the full screen, the new frame's list holds one no-op and the frame count grows by one |
| RenderSystem.RenderSystemLocal.RegisterFont | neo/renderer/RenderSystem.cpp:767-782 | the name without "fonts/" is looked up ignoring case; a known font is returned unchanged, otherwise it is appended and its new index returned |
| GuiModel.Advance | neo/renderer/GuiModel.cpp:252-270 | the index count is rounded up to a multiple of 8, the vertex count is kept, and one empty surface starting at the rounded count is appended after the unchanged old ones |
| GuiModel.AllocTrisState | neo/renderer/GuiModel.cpp:278-318 | a request fails exactly for a missing material, too many indexes counted from where the request would start, or too many vertices; otherwise it starts at the old vertex count and at the start index, both counters grow by the request, and the last surface carries the request's material and state; the surfaces closed before the request are kept unchanged in front |
| GuiModel.IndexRangeAsWritten | neo/renderer/GuiModel.cpp:282-313 | as written, the index bound is compared with the count before a surface break, while the indexes are written from the rounded start index |
| GuiModel.AllocTrisOverrunsAsWritten | neo/renderer/GuiModel.cpp:282-313 | with 119999 indexes used, a one-index request of a new material passes the bound test but writes index 120000, past MAX_INDEXES; the corrected allocation refuses it |
| GuiModel.SurfacesDisjoint | neo/renderer/GuiModel.cpp:252-318 | the index ranges of two different surfaces never overlap, and each lies below the index count and MAX_INDEXES |
| GuiModel.AdvancePreservesValid | neo/renderer/GuiModel.cpp:252-270 | a surface break after a non-empty surface keeps the surfaces consecutive, disjoint and within MAX_INDEXES |
| GuiModel.BeganFrameValid | neo/renderer/GuiModel.cpp:73-81 | a new frame holds one empty surface, no vertices and no indexes, and is well formed |
| GuiModel.AllocTrisPreservesValid | neo/renderer/GuiModel.cpp:278-318 | a successful allocation keeps the surface list well formed |
| GuiModel.NonEmptySurfacesMembers | neo/renderer/GuiModel.cpp:117-121 | the surfaces handed to the view are exactly those with at least one index |
| GuiModel.NonEmptySurfacesSnoc | neo/renderer/GuiModel.cpp:117-121 | the filter keeps surface order |
| GuiModel.EmptyFirstSurfaceMeansNothingToDraw | neo/renderer/GuiModel.cpp:176-178 | in a well-formed model an empty first surface is the only surface, so returning no view loses nothing |
| GuiModel.GuiModel.constructor | neo/renderer/GuiModel.cpp:41-54 | a new model has no surfaces, no vertices and no indexes |
| GuiModel.GuiModel.AdvanceSurf | neo/renderer/GuiModel.cpp:252-270 | the new state is the surface break of the old one |
| GuiModel.GuiModel.Clear | neo/renderer/GuiModel.cpp:63-66 | the surfaces are dropped and one fresh surface is started |
| GuiModel.GuiModel.BeginFrame | neo/renderer/GuiModel.cpp:73-81 | both counters restart at zero and one surface with the default material is started |
| GuiModel.GuiModel.AllocTris | neo/renderer/GuiModel.cpp:278-318 | on failure nothing changes and no pointer is returned; on success the state is the corrected allocation's, the written indexes are the request's indexes offset by the start vertex, and no other index is touched |
| GuiModel.GuiModel.WriteIndexes | neo/renderer/GuiModel.cpp:317-330 | each index slot of the request holds the start vertex plus the request's index, and other slots are kept |
| GuiModel.GuiModel.EmitSurfaces | neo/renderer/GuiModel.cpp:117-121 | the surfaces emitted are the non-empty ones, in order |
| GuiModel.GuiModel.EmitFullScreen | neo/renderer/GuiModel.cpp:174-243 | no view exactly when the first surface is empty; otherwise the viewport is the cropped viewport, the scissor is the same size anchored at 0, and the draw surfaces are the non-empty ones |
| FrontendMain.SortKey | neo/renderer/tr_frontend_main.cpp:104-120 | the key of surface i of n carries n - i in its low 16 bits and fits in 64 bits |
| FrontendMain.KeyOrder | neo/renderer/tr_frontend_main.cpp:104-120 | one key is larger than another exactly when its surface comes first: larger sort value, then larger depth, then lower original index |
| FrontendMain.KeysDistinct | neo/renderer/tr_frontend_main.cpp:119 | keys of two different surfaces of one sort never coincide |
| FrontendMain.ScanUp | neo/renderer/tr_frontend_main.cpp:139 | the scan stops at the first key not above the pivot, never past the guard, and every key it passed is at least the pivot |
| FrontendMain.ScanDown | neo/renderer/tr_frontend_main.cpp:140 | the scan stops at the first key not below the pivot, never before the guard, and every key it passed is at most the pivot |
| FrontendMain.Partition | neo/renderer/tr_frontend_main.cpp:132-142 | the partition loop leaves every element left of i at least the pivot and every element right of j at most it, keeps both indices strictly inside the range, touches nothing outside the range and permutes the keys |
| FrontendMain.SelectionSort | neo/renderer/tr_frontend_main.cpp:153-162 | the fallback pass leaves the range in non-increasing order, touches nothing outside it and permutes the keys |
| FrontendMain.Swap | neo/renderer/tr_frontend_main.cpp:140 | exchanging two keys swaps exactly those two entries and keeps the multiset of keys |
| FrontendMain.PartitionShrinks | neo/renderer/tr_frontend_main.cpp:130-152 | splitting a pending range of at least five elements into the two partition ranges lowers the termination measure |
| FrontendMain.AfterPartition | neo/renderer/tr_frontend_main.cpp:130-152 | after a partition the two new pending ranges replace the old one, what was settled stays settled, and the measure goes down |
| FrontendMain.AfterSelection | neo/renderer/tr_frontend_main.cpp:153-168 | after the selection sort the top range is settled and is popped, and the measure goes down |
| FrontendMain.SortKeys | neo/renderer/tr_frontend_main.cpp:123-169 | the explicit-stack quicksort leaves the keys in non-increasing order and is a permutation of them |
| FrontendMain.SortedOrder | neo/renderer/tr_frontend_main.cpp:171-175 | reading sorted keys back yields a permutation of the original positions, each key is its surface's key, and the surfaces come out in sort order |
| FrontendMain.BuildKeys | neo/renderer/tr_frontend_main.cpp:108-120 | the key loop fills a fresh buffer with the key of every surface in its original order |
| FrontendMain.ReadBack | neo/renderer/tr_frontend_main.cpp:171-174 | the read-back loop takes surface n - (key & 0xFFFF) for each sorted key |
| FrontendMain.CopyBack | neo/renderer/tr_frontend_main.cpp:175 | the copy leaves the surface array equal to the read-back sequence |
| FrontendMain.SortDrawSurfs | neo/renderer/tr_frontend_main.cpp:101-176 | the new surface array is a permutation of the old one in which a surface with a larger sort value, then a larger depth, then a lower original index comes first |
| FrontendMain.DropUnusedShadows | neo/renderer/tr_frontend_main.cpp:190-193 | a light with no lit surfaces loses both shadow chains; any other light is unchanged; id and scissor area are kept |
| FrontendMain.DroppedShadowsOnlyWhenUnlit | neo/renderer/tr_frontend_main.cpp:186-194 | after the first pass, a light keeps a shadow chain only when it lights some visible surface |
| FrontendMain.DropShadowsLoop | neo/renderer/tr_frontend_main.cpp:186-194 | the first pass over the light list applies the shadow drop to every light in order |
| FrontendMain.InsertByArea | neo/renderer/tr_frontend_main.cpp:244-254 | inserting a light into the ascending array adds exactly that light |
| FrontendMain.InsertByAreaAscending | neo/renderer/tr_frontend_main.cpp:244-254 | insertion keeps the array ascending by scissor area |
| FrontendMain.SortByArea | neo/renderer/tr_frontend_main.cpp:254 | the qsort by area - area is a permutation of the lights |
| FrontendMain.SortByAreaAscending | neo/renderer/tr_frontend_main.cpp:254 | the qsort leaves the lights ascending by scissor area |
| FrontendMain.RebuildList | neo/renderer/tr_frontend_main.cpp:256-261 | rebuilding the linked list by inserting each sorted light at the head reverses the array, so the list is a permutation with the largest area first |
| FrontendMain.OptimizeViewLightsList | neo/renderer/tr_frontend_main.cpp:184-262 | the new list holds exactly the lights after the shadow drop, ordered with the largest scissor area first |
| FrontendMain.StaticAlloc | neo/renderer/tr_frontend_main.cpp:55-65 | a failed allocation is fatal exactly when bytes is non-zero, a failed zero-byte allocation yields null, and otherwise the heap's buffer of that size is returned |
| FrontendMain.ClearedStaticAlloc | neo/renderer/tr_frontend_main.cpp:72-76 | a failed allocation is fatal exactly when bytes were asked for and a null pointer exactly when none were; a returned buffer is the heap's, has the requested length and every byte zeroed |
| FrontendSubview.TextureStage.constructor | neo/renderer/tr_frontend_subview.cpp:277-283 | a texture stage records its dynamic kind, size and image and has never been rendered (frame 0) |
| FrontendSubview.Intersect | neo/renderer/tr_frontend_subview.cpp:465 | the intersection takes the larger lower corner and the smaller upper corner of the two rectangles |
| FrontendSubview.IntersectContains | neo/renderer/tr_frontend_subview.cpp:465-470 | a pixel lies in the intersection exactly when it lies in both rectangles |
| FrontendSubview.StageScissorIsViewport | neo/renderer/tr_frontend_subview.cpp:391-399 | a stage subview's viewport spans the whole stage image and its scissor equals the viewport |
| FrontendSubview.MirrorViewBySurface | neo/renderer/tr_frontend_subview.cpp:207-253 | the mirror view copies the current view, clears the view id, is a mirrored subview with exactly one clip plane, looks from the camera mirrored in the surface (origin and axes), starts its area search from the point in front of the surface, and keeps the viewport, scissor and links |
| FrontendSubview.XrayViewBySurface | neo/renderer/tr_frontend_subview.cpp:260-270 | the x-ray view copies the current view with its camera and mirror flag, clears the view id and is an x-ray subview |
| FrontendSubview.XrayInMirrorAsWritten | neo/renderer/tr_frontend_subview.cpp:372-412 | as written, an x-ray subview of a mirrored view XORs the copied flag with the parent's a second time and so is rendered unmirrored; the corrected view stays mirrored |
| FrontendSubview.SubviewMirroring | neo/renderer/tr_frontend_subview.cpp:277-500 | a remote view is never mirrored; the mirror view (stage or surface) is mirrored exactly when the parent is not and two mirrors restore the order; the x-ray view as written is never mirrored, the corrected one keeps the parent's flag and camera |
| FrontendSubview.SubviewLinks | neo/renderer/tr_frontend_subview.cpp:277-500 | every subview clears the view id and records the current view as its super view and the surface; stage subviews use the whole stage image as viewport and scissor |
| FrontendSubview.SubviewCameras | neo/renderer/tr_frontend_subview.cpp:207-412 | a remote view looks from the entity's camera and searches for its area from that camera's origin; both mirror views look from the camera mirrored in the surface and search from the point in front of it; the x-ray view keeps the parent's camera and area origin |
| FrontendSubview.SeenThroughInherited | neo/renderer/tr_frontend_subview.cpp:436-446 | a subview of a view that looks through a surface still looks through it |
| FrontendSubview.NoRecursionThroughSameSurface | neo/renderer/tr_frontend_subview.cpp:434-446 | the guard stops recursion: from the mirror view through a surface, that surface never yields another subview |
| FrontendSubview.CroppedOutYieldsNothing | neo/renderer/tr_frontend_subview.cpp:448-473 | a surface whose screen rectangle lies wholly outside the view's scissor yields no subview |
| FrontendSubview.SubviewFrontend.constructor | neo/renderer/tr_frontend_subview.cpp:417-500 | a subview pass records the frame count, the skip switch and the current view and has rendered nothing yet |
| FrontendSubview.SubviewFrontend.RemoteRender | neo/renderer/tr_frontend_subview.cpp:277-323 | a stage rendered this frame, or an entity with no remote view, changes nothing; otherwise the remote camera's view is rendered into the stage image (the scratch image when it had none) and the stage is stamped with the frame |
| FrontendSubview.SubviewFrontend.MirrorRender | neo/renderer/tr_frontend_subview.cpp:330-365 | a stage rendered this frame changes nothing; otherwise the mirror view is rendered into the scratch image and the stage is stamped with the frame |
| FrontendSubview.SubviewFrontend.XrayRender | neo/renderer/tr_frontend_subview.cpp:372-412 | a stage rendered this frame changes nothing; otherwise the corrected x-ray view is rendered into the second scratch image and the stage is stamped with the frame |
| FrontendSubview.SubviewFrontend.GenerateSurfaceSubview | neo/renderer/tr_frontend_subview.cpp:417-500 | a subview is generated exactly when subviews are not skipped, the surface is not culled, no view in the chain looks through it and its crop is not empty; a subview-sorted material renders one cropped mirror view, any other material renders every dynamic stage |
| FrontendSubview.SubviewFrontend.GenerateSubViews | neo/renderer/tr_frontend_subview.cpp:513-538 | skipping subviews yields false and renders nothing; otherwise the result is true exactly when some surface with a subview material generates one |
| GLState.SrcBlend | neo/renderer/Vulkan/RenderProgs_VK.cpp:367-377 | the source factor is ONE exactly for field code 0, and is never a source-colour factor |
| GLState.DstBlend | neo/renderer/Vulkan/RenderProgs_VK.cpp:379-389 | the destination factor is ZERO exactly for field code 0, and is never a destination-colour factor |
| GLState.BlendDisabledIffDefaultFactors | neo/renderer/Vulkan/RenderProgs_VK.cpp:399 | blending is off exactly when both blend fields of the state are 0 |
| GLState.BlendOpOf | neo/renderer/Vulkan/RenderProgs_VK.cpp:391-397 | the blend equation is ADD exactly for the ADD code |
| GLState.DepthFunc | neo/renderer/Vulkan/RenderProgs_VK.cpp:419-425 | LESS and GREATER widen to their or-equal forms, so the comparison is one of EQUAL, ALWAYS, LEQUAL or GEQUAL, and ALWAYS exactly for the ALWAYS code |
| GLState.StencilFunc | neo/renderer/Vulkan/RenderProgs_VK.cpp:427-437 | the stencil comparison is the table entry for the field's code, ALWAYS exactly for the ALWAYS code |
| GLState.StencilFuncCode | neo/renderer/Vulkan/RenderProgs_VK.cpp:427-437 | every stencil function has a code below 8 that decodes back to it |
| GLState.StencilFuncCodeRoundTrip | neo/renderer/Vulkan/RenderProgs_VK.cpp:427-437 | every 3-bit code decodes to a function whose code is that code |
| GLState.StencilOpCode | neo/renderer/Vulkan/RenderProgs_VK.cpp:271-303 | every stencil operation has a code below 8 that decodes back to it |
| GLState.StencilOpCodeRoundTrip | neo/renderer/Vulkan/RenderProgs_VK.cpp:271-303 | every 3-bit code decodes to an operation whose code is that code |
| GLState.GetStencilOpState | neo/renderer/Vulkan/RenderProgs_VK.cpp:271-303 | the fail, depth-fail and pass operations are the table entries of their three fields |
| GLState.StencilOpBits | neo/renderer/Vulkan/RenderProgs_VK.cpp:271-303 | the encoding of three stencil operations sets no bit outside the operation fields |
| GLState.StencilOpsRoundTrip | neo/renderer/Vulkan/RenderProgs_VK.cpp:271-303 | decoding the encoding of any three front operations gives them back |
| GLState.BackStencilOpsRoundTrip | neo/renderer/RenderBackend.cpp:232-236 | back-face operations sit 12 bits above the front ones, inside the back fields, and shifting them down decodes to the same operations |
| GLState.StencilRef | neo/renderer/OpenGL/RenderBackend_GL.cpp:1896 | the reference value is an 8-bit field |
| GLState.StencilMask | neo/renderer/OpenGL/RenderBackend_GL.cpp:1897 | the compare mask is an 8-bit field |
| GLState.StencilMakeRef | neo/renderer/RenderBackend.cpp:2051 | placing a value in the reference field sets no other bit |
| GLState.StencilMakeMask | neo/renderer/RenderBackend.cpp:2052 | placing a value in the compare-mask field sets no other bit |
| GLState.StencilRefMaskRoundTrip | neo/renderer/OpenGL/RenderBackend_GL.cpp:1895-1910 | any 8-bit reference or mask survives the trip through its field |
| GLState.Cull | neo/renderer/Vulkan/RenderProgs_VK.cpp:345-362 | no face is culled exactly for a two-sided state |
| GLState.CullMirrorSwaps | neo/renderer/OpenGL/RenderBackend_GL.cpp:1755-1778 | a mirrored view culls the front face exactly when the unmirrored view culls the back face, and the other way round |
| GLState.StateMinusStencil | neo/renderer/RenderBackend.cpp:1122-1124 | the stencil operation, function, reference and mask fields are cleared and every other bit is kept |
| GLState.StateMinusStencilDisablesTest | neo/renderer/RenderBackend.cpp:1122-1124 | after the clear the stencil test is off, the function is ALWAYS, and reference and mask are 0 |
| GLState.StateMinusStencilResetsOps | neo/renderer/RenderBackend.cpp:1122-1124 | after the clear every stencil operation is KEEP, and clearing again changes nothing |
| GLState.StateMinusStencilKeeps | neo/renderer/RenderBackend.cpp:1122-1124 | blending, blend equation, depth comparison and culling decode as before the clear |
| GLState.DepthBoundsCache | neo/renderer/OpenGL/RenderBackend_GL.cpp:2139-2155 | without device support or with zmin > zmax the state is unchanged; otherwise the depth-bounds bit is set exactly when the range is not 0..0; no other bit changes |
| GLState.WithDepthBounds | neo/renderer/OpenGL/RenderBackend_GL.cpp:2144-2151 | only the depth-bounds bit changes, to the requested value |
| ImageLoad.BitsForFormat | neo/renderer/Image_load.cpp:57-76 | a format has 0 bits per texel exactly when it is FMT_NONE; every size is a multiple of 4 up to 32, and compressed formats take at most 8 |
| ImageLoad.DerivedFormat | neo/renderer/Image_load.cpp:85-143 | an explicit format is kept untouched; an unset one is chosen from the usage and is never FMT_NONE, and only format, colour format, level count and gamma mips can change (the level count only for fonts, to 4) |
| ImageLoad.MipLevels | neo/renderer/Image_load.cpp:150-161 | a mip chain always has at least one level |
| ImageLoad.DerivedLevels | neo/renderer/Image_load.cpp:145-163 | only the level count changes; an explicit count is kept, an unset one becomes at least 1, and exactly 1 under linear or nearest filtering |
| ImageLoad.MipLevelsUncompressed | neo/renderer/Image_load.cpp:150-161 | for an uncompressed format the level count is the number of halvings of the larger side plus one: 2^(n-1) <= max(w, h) < 2^n |
| ImageLoad.MipLevelsCompressedShorter | neo/renderer/Image_load.cpp:155-158 | stopping at block-misaligned sizes never gives a DXT format more levels than an uncompressed one |
| ImageLoad.DerivedOptsKeepsExplicit | neo/renderer/Image_load.cpp:83-163 | options with a format and a level count pass DeriveOpts unchanged |
| ImageLoad.DerivedOptsIdempotent | neo/renderer/Image_load.cpp:83-163 | deriving the options twice gives what deriving once gives |
| ImageLoad.FontOpts | neo/renderer/Image_load.cpp:119-123 | font images become DXT1 in the green-alpha colour format with 4 levels |
| ImageLoad.BumpOpts | neo/renderer/Image_load.cpp:115-117 | bump images become DXT5 in the normal-map colour format |
| ImageLoad.MakePowerOfTwo | neo/renderer/Image_load.cpp:368-373 | the result is the least power of two that is at least num (1 for num <= 1) and fits in 32 bits |
| ImageLoad.Image.constructor | neo/renderer/Vulkan/Image_VK.cpp:133-151 | a new image has default options, default filter, repeat wrapping, null handles and the general layout |
| ImageLoad.Image.DeriveOpts | neo/renderer/Image_load.cpp:83-163 | the options become DerivedOpts of the old options under the image's filter, and nothing else changes |
| ImageLoad.Image.StorageSize | neo/renderer/Image_load.cpp:380-393 | an unloaded image takes 0 bytes; a loaded one takes its texel count (times 4/3 with mips) times the format's bits, divided by 8 and rounded down |
| ImageLoad.Image.GenerateImage | neo/renderer/Image_load.cpp:519-554 | filter and repeat are the requested ones and the options are a 2D image of the given size with derived format and levels; the GPU handles are left for the allocation step |
| ImageLoad.Image.GenerateCubeImage | neo/renderer/Image_load.cpp:561-594 | filter is the requested one, wrapping is clamp, and the options are a square cube image of the given size with derived format and levels |
| ImageLoad.Image.UploadScratchImage | neo/renderer/Image_load.cpp:603-640 | rows equal to six times cols mean a cube map of side cols; an image of the wrong type or usage is regenerated as an RGBA lookup table, linear filtered, clamped for cubes and repeated for 2D; otherwise only the size changes, reallocation happens exactly when it differs, and the cube faces are uploaded from offsets cols*cols*4*i |
| ImageLoad.LastDot | neo/renderer/Image_load.cpp:190 | the index found holds a '.' with none after it, and there is none exactly when the name has no '.' |
| ImageLoad.TwoDigits | neo/renderer/Image_load.cpp:192 | "%02d" gives two characters and no '.' |
| ImageLoad.GeneratedTag | neo/renderer/Image_load.cpp:192 | the usage-and-cube tag has seven characters and no '.' |
| ImageLoad.GeneratedNamePlain | neo/renderer/Image_load.cpp:186-196 | a name without a '.' just gains the tag |
| ImageLoad.GeneratedNameKeepsExtension | neo/renderer/Image_load.cpp:186-196 | "stem.ext" with a dot-free stem becomes stem, tag, then ".ext" |
| ImageLoad.GeneratedNameDoubleDot | neo/renderer/Image_load.cpp:186-196 | a stem that itself holds a '.' loses the tag: "a.b.tga" becomes "a.tga" for every usage and cube |
| ImageVK.FormatFromTextureFormatAsWritten | neo/renderer/Vulkan/Image_VK.cpp:52-69 | the format table as written: XRGB8 maps to the 24-bit R8G8B8 format, and every other format maps as in the corrected table |
| ImageVK.XRGB8StagingMismatch | neo/renderer/Vulkan/Image_VK.cpp:55 | the as-written XRGB8 format has 24 bits per texel while the upload path stages 32 bits per texel for it |
| ImageVK.FormatFromTextureFormat | neo/renderer/Vulkan/Image_VK.cpp:52-69 | FMT_NONE maps to the undefined format, FMT_DEPTH to the device's depth format, and every other format to a defined Vulkan format |
| ImageVK.FormatBitsAgree | neo/renderer/Vulkan/Image_VK.cpp:52-69 | for every non-depth format the Vulkan texel size equals the engine's BitsForFormat, so staged sizes match the image |
| ImageVK.ComponentMappingFor | neo/renderer/Vulkan/Image_VK.cpp:76-124 | green-alpha images read (1, 1, 1, G); formats outside the luminance, alpha and intensity group read straight through; no channel reads constant zero |
| ImageVK.SwizzleWithinChannels | neo/renderer/Vulkan/Image_VK.cpp:92-116 | for the one- and two-channel formats every swizzle reads a channel the Vulkan format actually has |
| ImageVK.SamplerCreateInfo | neo/renderer/Vulkan/Image_VK.cpp:197-250 | an unknown filter or repeat mode is a fatal error naming its code; otherwise depth comparison is on exactly for depth images, nearest filtering exactly for TF_NEAREST, border clamping exactly for the clamp-to-zero modes, with an opaque black border exactly for TR_CLAMP_TO_ZERO |
| ImageVK.ImageInfoFor | neo/renderer/Vulkan/Image_VK.cpp:310-335 | cube images have six layers and the cube-compatible flag, 2D images one layer; every image is sampled; depth images are depth-stencil attachments and all others transfer destinations; size, levels and samples come from the options |
| ImageVK.ViewInfoFor | neo/renderer/Vulkan/Image_VK.cpp:362-369 | the view is a cube view exactly for cube images, has the depth and stencil aspects exactly for depth images, and uses the format's component mapping |
| ImageVK.ViewCoversImage | neo/renderer/Vulkan/Image_VK.cpp:330-369 | the view has the image's format, level count and layer count |
| ImageVK.Purged | neo/renderer/Vulkan/Image_VK.cpp:379-397 | a live sampler and a live image with its view and allocation are appended to the current garbage slot; nothing is appended for null handles; other slots are untouched |
| ImageVK.Emptied | neo/renderer/Vulkan/Image_VK.cpp:256-298 | emptying moves to the next slot and clears it; other slots are untouched |
| ImageVK.EmptiedTimes | neo/renderer/Vulkan/Image_VK.cpp:256-298 | repeated emptying keeps the ring well-formed |
| ImageVK.EmptiedTimesKeepsSlot | neo/renderer/Vulkan/Image_VK.cpp:256-298 | fewer than NUM_FRAME_DATA emptyings leave the slot garbage was written to untouched |
| ImageVK.ReleasedAfterFullRing | neo/renderer/Vulkan/Image_VK.cpp:256-298 | garbage survives the next NUM_FRAME_DATA - 1 emptyings and is freed by the one after |
| ImageVK.GarbageRing.constructor | neo/renderer/Vulkan/Image_VK.cpp:37-45 | the ring starts at slot 0 with every slot empty |
| ImageVK.GarbageRing.EmptyGarbage | neo/renderer/Vulkan/Image_VK.cpp:256-298 | the new ring is the emptied old one, and what is freed is exactly the contents of the next slot |
| ImageVK.PurgeImage | neo/renderer/Vulkan/Image_VK.cpp:379-397 | the garbage ring gains the image's live handles, the sampler and image handles become null, and the view and allocation are cleared only with the image; options, filter, repeat and layout are kept |
| ImageVK.AllocImage | neo/renderer/Vulkan/Image_VK.cpp:306-371 | the old handles go to garbage first; allocation succeeds exactly when the sampler description is valid, and then the created sampler, image and view are described by SamplerCreateInfo, ImageInfoFor and ViewInfoFor; a fatal sampler error leaves the image unloaded; options, filter, repeat and layout are unchanged |
| ImageVK.UploadExtent | neo/renderer/Vulkan/Image_VK.cpp:418-421 | compressed uploads round width and height up to the next multiple of 4, other uploads keep them |
| ImageVK.UploadSize | neo/renderer/Vulkan/Image_VK.cpp:423 | the staged byte count is the rounded extent times the format's bits per texel, divided by 8 |
| ImageVK.SwapPairs | neo/renderer/Vulkan/Image_VK.cpp:429-434 | each byte is replaced by its pair partner and the length is kept |
| ImageVK.PairPartnerInRange | neo/renderer/Vulkan/Image_VK.cpp:429-434 | the pair partner of an index in an even-length buffer is in range and its own partner is the index |
| ImageVK.SwapPairsInvolution | neo/renderer/Vulkan/Image_VK.cpp:429-434 | swapping the bytes of every pair twice restores the buffer |
| ImageVK.StageSwapped | neo/renderer/Vulkan/Image_VK.cpp:429-434 | the staging loop produces exactly the pair-swapped first size bytes |
| ImageVK.SubImageUpload | neo/renderer/Vulkan/Image_VK.cpp:415-474 | RGB565 data is staged pair-swapped and other data copied; the copy region covers the requested level, layer, offset and rounded extent; the image ends in the shader-read layout and nothing else changes |
| RenderBackend.ModeLessTotal | neo/renderer/RenderBackend.cpp:916-921 | the mode comparison (height, then width, then refresh rate) is a strict total order |
| RenderBackend.FirstYielding | neo/renderer/RenderBackend.cpp:837-913 | the display chosen is the first at or after the requested one that is attached, has a monitor and offers an eligible mode; none is found exactly when no later display does |
| RenderBackend.CollectModes | neo/renderer/RenderBackend.cpp:880-911 | the list holds exactly the distinct modes of the 32-bit, 60 or 120 Hz, at-least-720-lines settings, each once |
| RenderBackend.Insert | neo/renderer/RenderBackend.cpp:925 | insertion adds exactly the new mode to the list |
| RenderBackend.InsertSorted | neo/renderer/RenderBackend.cpp:925 | inserting a new mode into a strictly ascending list keeps it strictly ascending |
| RenderBackend.SortModes | neo/renderer/RenderBackend.cpp:914-925 | the sorted list is a permutation of the collected one, in strictly ascending mode order |
| RenderBackend.GetModeListForDisplay | neo/renderer/RenderBackend.cpp:832-931 | a negative display fails; otherwise the call succeeds exactly when some display from the requested one on yields modes, and then the list is non-empty, strictly ascending and holds exactly the modes that display offers; a failure leaves the list empty |
| RenderBackend.VidModeAsWrittenOverruns | neo/renderer/RenderBackend.cpp:1030-1037 | the bound check as written lets r_vidMode equal the list length through, an index one past the end |
| RenderBackend.VidModeChecked | neo/renderer/RenderBackend.cpp:1030-1033 | the corrected check keeps an in-range mode, resets an out-of-range one to 0, and always yields a valid index of a non-empty list |
| RenderBackend.GetModeParms | neo/renderer/RenderBackend.cpp:993-1045 | windowed settings are copied with refresh 0; for fullscreen the mode list of the requested display is used, falling back to display 1, and "no modes" is reported exactly when both fail; a negative r_vidMode uses the custom size and refresh, and otherwise the parameters are the checked mode's entry of the sorted list |
| RenderBackend.LeadingSubviews | neo/renderer/RenderBackend.cpp:1854-1858 | the depth fill skips exactly the maximal run of subview surfaces at the head of the list |
| RenderBackend.Positions | neo/renderer/RenderBackend.cpp:1869-1882 | every collected index lies in the scanned range |
| RenderBackend.PositionsExact | neo/renderer/RenderBackend.cpp:1869-1882 | the collected indices are exactly the opaque (or the perforated) surfaces in the range, in ascending order |
| RenderBackend.PositionsMembers | neo/renderer/RenderBackend.cpp:1869-1882 | an index is collected exactly when it is in the range and has the requested coverage |
| RenderBackend.PositionsAscending | neo/renderer/RenderBackend.cpp:1869-1882 | the collected indices ascend |
| RenderBackend.SubviewPasses | neo/renderer/RenderBackend.cpp:1854-1858 | each leading subview surface gets its own generic pass, in order |
| RenderBackend.SolidPasses | neo/renderer/RenderBackend.cpp:1883-1907 | each opaque surface gets one pass with the skinned or plain depth program chosen by its joints |
| RenderBackend.FillDepthBufferFast | neo/renderer/RenderBackend.cpp:1833-1916 | the passes issued are DepthPasses of the surfaces: nothing for no surfaces or a 2D view |
| RenderBackend.DrawOpaque | neo/renderer/RenderBackend.cpp:1869-1907 | the loop draws exactly the opaque surfaces after the subviews and collects exactly the perforated ones, both in order |
| RenderBackend.DepthPassesShape | neo/renderer/RenderBackend.cpp:1833-1916 | a 3D fill is the subview passes, then one pass per opaque surface, then one generic pass over the perforated surfaces when there are any |
| RenderBackend.SolidPassAt | neo/renderer/RenderBackend.cpp:1869-1907 | the i-th opaque surface is drawn by the pass right after the subview passes plus i |
| RenderBackend.DepthPassDrawsKept | neo/renderer/RenderBackend.cpp:1854-1912 | every leading subview and every non-translucent surface is drawn, opaque ones by their own solid pass |
| RenderBackend.DepthPassDrawsSolid | neo/renderer/RenderBackend.cpp:1869-1907 | every opaque surface after the subviews has its own solid pass |
| RenderBackend.DepthPassSkipsTranslucent | neo/renderer/RenderBackend.cpp:1874-1876 | no pass draws a translucent surface after the subviews |
| RenderBackend.TranslucentUnlisted | neo/renderer/RenderBackend.cpp:1874-1876 | a translucent surface is in neither the opaque nor the perforated list |
| RenderBackend.SubviewsOmit | neo/renderer/RenderBackend.cpp:1854-1858 | the subview passes draw nothing past the leading run |
| RenderBackend.SolidsOmit | neo/renderer/RenderBackend.cpp:1883-1907 | the solid passes draw only the listed surfaces |
| RenderBackend.NotDrawnConcat | neo/renderer/RenderBackend.cpp:1833-1916 | a surface drawn by neither part of the pass list is not drawn by the whole |
| RenderBackend.DepthPassesDraw | neo/renderer/RenderBackend.cpp:1833-1916 | in a 3D view a surface reaches the depth buffer exactly when it is a leading subview or not translucent |
| RenderBackend.FirstStop | neo/renderer/RenderBackend.cpp:2494-2497 | the ambient loop stops at the first surface that is a post-process surface drawn before the render copy, and at no earlier one |
| RenderBackend.DrawShaderPasses | neo/renderer/RenderBackend.cpp:2456-2743 | with entities and r_skipAmbient every surface is reported done and none drawn; otherwise the loop stops at FirstStop and draws exactly the earlier surfaces that have an ambient stage, are not portal skies, have indexes, are not suppressed in subviews and pass the x-ray filter, in order |
| RenderBackend.AmbientStopsBeforePostProcess | neo/renderer/RenderBackend.cpp:2494-2497 | before the render copy, no post-process surface is drawn by the ambient pass |
| RenderBackend.RoundDown16 | neo/renderer/RenderBackend.cpp:2360-2361 | clearing the low four bits gives the multiple of 16 at or below the value |
| RenderBackend.RoundUp16 | neo/renderer/RenderBackend.cpp:2362-2363 | adding 15 then clearing the low four bits gives the multiple of 16 at or above the value |
| RenderBackend.TileRectCovers | neo/renderer/RenderBackend.cpp:2359-2363 | the stencil-clear rectangle is on 16-pixel tile edges and contains the light's scissor rectangle, moving each edge by less than a tile |
| RenderBackend.TileScissorCovers | neo/renderer/RenderBackend.cpp:2365-2370 | the scissor set for the clear covers the light's rectangle in screen space, with sides of 16k + 1 pixels |
| RenderBackendGL.Flagged | neo/renderer/OpenGL/RenderBackend_GL.cpp:1755-1946 | the groups GL_State updates are exactly the ones whose bits differ, visited in ascending order |
| RenderBackendGL.StateAfter | neo/renderer/OpenGL/RenderBackend_GL.cpp:1755-1950 | the cached state takes the new bits outside GLS_KEEP and GLS_MIRROR_VIEW, keeps the old GLS_KEEP bits, and has the mirror bit exactly when asked for or when a mirrored view changes a one-sided cull mode |
| RenderBackendGL.ForcedStateIssuesEveryGroup | neo/renderer/OpenGL/RenderBackend_GL.cpp:1744-1747 | a forced update issues the command of every one of the ten state groups, in order |
| RenderBackendGL.AllFlagged | neo/renderer/OpenGL/RenderBackend_GL.cpp:1744-1747 | with every group flagged all groups from g on are visited |
| RenderBackendGL.NoneFlagged | neo/renderer/OpenGL/RenderBackend_GL.cpp:1748-1750 | with no group flagged none is visited |
| RenderBackendGL.CacheOnlyDiffFlagsNothing | neo/renderer/OpenGL/RenderBackend_GL.cpp:1755-1946 | a difference confined to the cache-only bits touches no state group |
| RenderBackendGL.RepeatedStateIssuesNothing | neo/renderer/OpenGL/RenderBackend_GL.cpp:1741-1950 | setting the same state again right after issues no GL command |
| RenderBackendGL.StateGroupMeanings | neo/renderer/OpenGL/RenderBackend_GL.cpp:1797-1911 | the blend group turns blending off exactly for the ONE/ZERO factors, and the stencil group enables the test exactly when a stencil function or operation bit is set |
| RenderBackendGL.SwapInterval | neo/renderer/OpenGL/RenderBackend_GL.cpp:1068-1074 | the interval is -1 exactly for r_swapInterval 1 with tear control, 0 exactly for values other than 1 and 2, and 1 otherwise |
| RenderBackendGL.AttribsFor | neo/renderer/OpenGL/RenderBackend_GL.cpp:407-418 | r_useOpenGL32 0 asks for a 2.0 context without a profile, 1 for a 3.2 compatibility profile, 2 for a 3.2 core profile, with the requested debug flag |
| RenderBackendGL.CreateOpenGLContext | neo/renderer/OpenGL/RenderBackend_GL.cpp:402-436 | the first attempt uses the configured attributes; a refusal falls back once to OpenGL 2.0; the context exists exactly when the last attempt was accepted, with that attempt's attributes |
| RenderBackendGL.CheckErrors | neo/renderer/OpenGL/RenderBackend_GL.cpp:950-987 | at most ten errors are drained, stopping at the first GL_NO_ERROR; each drained error is reported by name unless errors are ignored |
| RenderBackendGL.SelectedUnit | neo/renderer/OpenGL/RenderBackend_GL.cpp:2016-2029 | the selected unit changes exactly when a different unit below the limit is requested, and then becomes that unit |
| RenderBackendGL.SelectTextureOverrunsAsWritten | neo/renderer/OpenGL/RenderBackend_GL.cpp:2021-2028 | checked against the driver's unit count (16) rather than the cache size, unit 8 is selected although the cache holds only 8 units |
| RenderBackendGL.SelectTextureAgreesWithinCache | neo/renderer/OpenGL/RenderBackend_GL.cpp:2021-2028 | when the driver reports no more units than the cache holds, the corrected bound selects as the source does |
| RenderBackendGL.GLBackend.constructor | neo/renderer/OpenGL/RenderBackend_GL.cpp:1142-1149 | every texture unit binds nothing, unit 0 is current and the state cache is clear; the driver limits are recorded |
| RenderBackendGL.GLBackend.SetDefaultState | neo/renderer/OpenGL/RenderBackend_GL.cpp:1689-1735 | the default state is forced through every group, every texture unit is unbound, unit 0 is current and the polygon offset is reset |
| RenderBackendGL.GLBackend.GL_State | neo/renderer/OpenGL/RenderBackend_GL.cpp:1741-1951 | an unchanged, unforced state issues nothing; otherwise the commands of exactly the changed groups are issued and the cache becomes StateAfter; nothing else changes |
| RenderBackendGL.GLBackend.GL_SelectTexture | neo/renderer/OpenGL/RenderBackend_GL.cpp:2016-2029 | the current unit becomes SelectedUnit under the cache-sized bound, a warning is given exactly for a different unit out of range, and the cache stays valid |
| RenderBackendGL.GLBackend.GL_BindTexture | neo/renderer/OpenGL/RenderBackend_GL.cpp:2040-2066 | only the current unit's 2D or cube binding changes, to the image, and a GL bind is issued exactly when it differed |
| RenderBackendGL.GLBackend.GL_PolygonOffset | neo/renderer/OpenGL/RenderBackend_GL.cpp:2161-2169 | scale and bias are recorded and applied exactly when polygon offset is enabled in the state |
| RenderBackendGL.GLBackend.GL_DepthBoundsTest | neo/renderer/OpenGL/RenderBackend_GL.cpp:2139-2154 | the state cache becomes DepthBoundsCache of the old state and nothing else changes |
| RenderBackendGL.GLBackend.SwapBuffers | neo/renderer/OpenGL/RenderBackend_GL.cpp:1061-1092 | a modified r_swapInterval is applied as SwapInterval when the driver supports it, and the sync index flips between 0 and 1 |
| RenderBackendVK.CheckPhysicalDeviceExtensionSupport | neo/renderer/Vulkan/RenderBackend_VK.cpp:395-409 | a device passes exactly when every required extension appears among its extensions, compared without case |
| RenderBackendVK.FindFamily | neo/renderer/Vulkan/RenderBackend_VK.cpp:500-526 | the index found is the first queue family with queues that supports graphics (or presentation), and -1 exactly when none does |
| RenderBackendVK.FirstFamily | neo/renderer/Vulkan/RenderBackend_VK.cpp:500-526 | the first fitting family fits and no earlier one does |
| RenderBackendVK.FirstFamilyIs | neo/renderer/Vulkan/RenderBackend_VK.cpp:500-526 | any fitting family with no fitting family before it is the first fitting family |
| RenderBackendVK.ChooseSurfaceFormat | neo/renderer/Vulkan/RenderBackend_VK.cpp:616-633 | a single undefined format yields B8G8R8A8 in sRGB; otherwise that format when the surface offers it, and else the first one offered |
| RenderBackendVK.ChoosePresentMode | neo/renderer/Vulkan/RenderBackend_VK.cpp:640-661 | with r_swapInterval below 1 the first mailbox or immediate mode offered is used; without one, or with vsync asked for, the mode is FIFO |
| RenderBackendVK.ChooseSurfaceExtent | neo/renderer/Vulkan/RenderBackend_VK.cpp:668-678 | a current width of -1 means the native screen size; otherwise the surface's current extent is kept |
| RenderBackendVK.ChooseSampleCount | neo/renderer/Vulkan/RenderBackend_VK.cpp:847-856 | the sample count is the largest of 16, 8, 4, 2 that is requested and supported; with none, the previous count is kept |
| RenderBackendVK.FormatsReadAsWritten | neo/renderer/Vulkan/RenderBackend_VK.cpp:315-327 | the scan as written returns the first supported index among the count it is told to read, or count when none is |
| RenderBackendVK.DepthFormatScanOverruns | neo/renderer/Vulkan/RenderBackend_VK.cpp:859-867 | the depth format list holds 2 entries but the scan is told to read 3, so a device supporting neither listed format reads past the list |
| RenderBackendVK.ChooseSupportedFormat | neo/renderer/Vulkan/RenderBackend_VK.cpp:315-327 | the format chosen is the first supported one in the list, and there is none exactly when no listed format is supported |
| RenderBackendVK.StateCache | neo/renderer/Vulkan/RenderBackend_VK.cpp:1660-1665 | the cache takes the new bits outside GLS_KEEP and GLS_MIRROR_VIEW, keeps the old GLS_KEEP bits, and a mirrored view sets the mirror bit |
| RenderBackendVK.StateCacheIdempotent | neo/renderer/Vulkan/RenderBackend_VK.cpp:1660-1665 | setting the same state twice caches what setting it once does |
| RenderBackendVK.DepthBoundsSurvivesState | neo/renderer/Vulkan/RenderBackend_VK.cpp:1660-1665 | a depth-bounds bit set by GL_DepthBoundsTest survives any later GL_State, since it is one of the GLS_KEEP bits |
| RenderBackendVK.VulkanBackend.constructor | neo/renderer/Vulkan/RenderBackend_VK.cpp:1119-1170 | a new backend has no device selected, one sample, no depth format, frame counter 0, no recorded command buffers and a clear state cache |
| RenderBackendVK.VulkanBackend.SelectSuitablePhysicalDevice | neo/renderer/Vulkan/RenderBackend_VK.cpp:416-545 | a device is selected exactly when some device is suitable (extensions, surface formats, present modes, graphics and present families), and then it is the first suitable one with its first fitting families; otherwise the selection is unchanged (the source then stops with a fatal error) |
| RenderBackendVK.VulkanBackend.ChooseRenderTargetFormats | neo/renderer/Vulkan/RenderBackend_VK.cpp:839-867 | the sample count is ChooseSampleCount's; the depth format is D32S8 when supported, else D24S8 when supported, and success means one of the two was |
| RenderBackendVK.VulkanBackend.BlockingSwapBuffers | neo/renderer/Vulkan/RenderBackend_VK.cpp:1399-1414 | the frame counter advances and selects frame counter mod NUM_FRAME_DATA; that frame's fence is waited on exactly when its command buffer was recorded, after which it is not recorded |
| RenderBackendVK.VulkanBackend.GL_State | neo/renderer/Vulkan/RenderBackend_VK.cpp:1660-1665 | the state cache becomes StateCache of the old cache and nothing else changes |
| RenderBackendVK.VulkanBackend.GL_DepthBoundsTest | neo/renderer/Vulkan/RenderBackend_VK.cpp:1807-1819 | the state cache becomes DepthBoundsCache of the old cache under the device's depth-bounds support |
| RenderDebug.Surviving | neo/renderer/RenderDebug.cpp:98-108 | compaction never lengthens the list |
| RenderDebug.SurvivingMembers | neo/renderer/RenderDebug.cpp:98-108 | an entry survives a clear at time t exactly when its lifetime ends after t |
| RenderDebug.SurvivingConcat | neo/renderer/RenderDebug.cpp:98-108 | compaction keeps order: compacting a concatenation compacts each part |
| RenderDebug.SurvivingIdempotent | neo/renderer/RenderDebug.cpp:98-108 | clearing twice at the same time keeps what clearing once keeps |
| RenderDebug.DebugBuffer.constructor | neo/renderer/RenderDebug.cpp:39-47 | a new buffer has the fixed capacity, no live entries and time 0 |
| RenderDebug.DebugBuffer.Add | neo/renderer/RenderDebug.cpp:60-76 | below capacity the entry is appended with lifetime the buffer's time plus its own; a full buffer is left unchanged |
| RenderDebug.DebugBuffer.Clear | neo/renderer/RenderDebug.cpp:81-109 | the buffer's time becomes t; t = 0 empties it; otherwise the live entries become exactly the survivors, in order |
| RenderDebug.DebugBuffer.Compact | neo/renderer/RenderDebug.cpp:98-108 | the copy-down loop leaves exactly the surviving entries, in order, at the front |
| RenderDebug.DebugBuffer.ClearStrings | neo/renderer/RenderDebug.cpp:90-93 | every slot's text is emptied and nothing else changes |
| RenderDebug.WithoutText | neo/renderer/RenderDebug.cpp:92 | emptying a slot's text keeps its lifetime |
| RenderDebug.DebugTools.constructor | neo/renderer/RenderDebug.cpp:39-47 | the three debug lists start empty |
| RenderDebug.DebugTools.AddText | neo/renderer/RenderDebug.cpp:60-76 | below MAX_DEBUG_TEXT the text is appended with its end time; otherwise nothing is added |
| RenderDebug.DebugTools.AddLine | neo/renderer/RenderDebug.cpp:117-130 | below MAX_DEBUG_LINES the line is appended with its end time; otherwise nothing is added |
| RenderDebug.DebugTools.AddPolygon | neo/renderer/RenderDebug.cpp:166-179 | below MAX_DEBUG_POLYGONS the polygon is appended with its end time; otherwise nothing is added |
| RenderDebug.DebugTools.ClearText | neo/renderer/RenderDebug.cpp:81-109 | time 0 empties the list and clears every string; otherwise exactly the texts that outlive the time remain |
| RenderDebug.DebugTools.ClearLines | neo/renderer/RenderDebug.cpp:135-158 | time 0 empties the list; otherwise exactly the lines that outlive the time remain |
| RenderDebug.DebugTools.ClearPolygons | neo/renderer/RenderDebug.cpp:183-207 | time 0 empties the list; otherwise exactly the polygons that outlive the time remain |
| RenderDebug.FiveDigits | neo/renderer/RenderDebug.cpp:429-439 | a shot number becomes five decimal digits |
| RenderDebug.DigitValue | neo/renderer/RenderDebug.cpp:429-439 | each digit character stands for its value |
| RenderDebug.FiveDigitsRoundTrip | neo/renderer/RenderDebug.cpp:429-439 | reading the five digits back gives the shot number |
| RenderDebug.ShotName | neo/renderer/RenderDebug.cpp:439 | the file name is the base, five digits and ".tga" |
| RenderDebug.ShotNamesDistinct | neo/renderer/RenderDebug.cpp:439 | different shot numbers give different file names |
| RenderDebug.ScreenshotNameUnsetAsWritten | neo/renderer/RenderDebug.cpp:421-448 | as written, a counter at 99998 or 99999 skips the loop and leaves the file name unset |
| RenderDebug.ScreenshotOverwritesAsWritten | neo/renderer/RenderDebug.cpp:421-448 | as written, with shot 99998 present a counter at 99997 ends on 99999 but returns the existing name 99998, which is overwritten |
| RenderDebug.ScreenshotFilename | neo/renderer/RenderDebug.cpp:419-448 | the number chosen is between the incremented counter (capped at 99999) and 99999, every number skipped names an existing file, the name is that number's, and below 99999 the name is free |
| RenderDebug.ClampBlends | neo/renderer/RenderDebug.cpp:492-498 | the blend count is clamped into 1..MAX_BLENDS |
| RenderDebug.ScreenshotCommand | neo/renderer/RenderDebug.cpp:462-510 | 1 to 4 arguments take a shot and any other count prints usage; without a size the screen size is used; the blend count is 1 except with 4 arguments, where it is clamped; a given file name is used as is and otherwise the next shot name is chosen |
| RenderDebug.SizeUp | neo/renderer/RenderDebug.cpp:351-357 | sizeUp grows the view by 10 percent, capped at 100 |
| RenderDebug.SizeDown | neo/renderer/RenderDebug.cpp:359-365 | sizeDown shrinks the view by 10 percent, floored at 10 |
| RenderDebug.SizeStepsInverse | neo/renderer/RenderDebug.cpp:351-365 | within 10..100 the two commands stay in range and undo each other away from the ends |
| RenderDebug.SumReadsBounds | neo/renderer/RenderDebug.cpp:249-255 | a sum of n byte reads lies between n times their least and greatest values |
| RenderDebug.BlendIsMean | neo/renderer/RenderDebug.cpp:249-260 | up to MAX_BLENDS reads the 16-bit sum does not wrap, so each blended byte is the mean of its reads and lies between their least and greatest values |
| RenderDebug.Accumulate | neo/renderer/RenderDebug.cpp:252-254 | each accumulator entry gains the sample's byte, modulo 2^16 |
| RenderDebug.AddMod | neo/renderer/RenderDebug.cpp:252-254 | reducing before adding gives the same residue |
| RenderDebug.AccumulateReads | neo/renderer/RenderDebug.cpp:249-255 | after all reads each accumulator entry is the sum of its reads modulo 2^16 |
| RenderDebug.TakeScreenshot | neo/renderer/RenderDebug.cpp:231-284 | the file written is an 18-byte TGA header for an uncompressed 24-bit image of the given size followed by the pixels (one read, or the mean of the blended reads) in blue-green-red order |
| RenderDebug.WriteHeader | neo/renderer/RenderDebug.cpp:266-271 | the header records type 2, the width and height as little-endian 16-bit values and 24 bits per pixel, leaves the other header bytes 0 and touches no pixel |
| RenderDebug.ScreenshotFileFrom | neo/renderer/RenderDebug.cpp:231-284 | a buffer holding that header and the red-blue swapped image is a screenshot file |
| RenderDebug.StorePixels | neo/renderer/RenderDebug.cpp:244 | one read fills the pixel area and leaves the header alone |
| RenderDebug.StoreMeans | neo/renderer/RenderDebug.cpp:258-260 | the divided sums fill the pixel area and leave the header alone |
| RenderDebug.SwapRedBlue | neo/renderer/RenderDebug.cpp:273-279 | each pixel's first and third bytes are exchanged and the header is kept |
| RenderDebugGL.OverrideAll | neo/renderer/OpenGL/RenderDebug_GL.cpp:316-334 | every surface is kept in order with the overdraw material substituted (draw surfaces only when they already had a material, interactions always) |
| RenderDebugGL.OverrideAllAppend | neo/renderer/OpenGL/RenderDebug_GL.cpp:316-334 | substituting over a concatenation substitutes over each part |
| RenderDebugGL.RetargetStep | neo/renderer/OpenGL/RenderDebug_GL.cpp:324-334 | handling one more light appends its local then its global interactions, substituted |
| RenderDebugGL.Cleared | neo/renderer/OpenGL/RenderDebug_GL.cpp:332-333 | every light ends with no local and no global interactions |
| RenderDebugGL.OverdrawAllocShort | neo/renderer/OpenGL/RenderDebug_GL.cpp:314 | as written the allocation adds the surface count unscaled to the scaled interaction count, so with any surface it is smaller than the pointers stored into it |
| RenderDebugGL.OverdrawAlloc | neo/renderer/OpenGL/RenderDebug_GL.cpp:314 | the corrected allocation holds a pointer for every surface and every interaction |
| RenderDebugGL.CountInteractions | neo/renderer/OpenGL/RenderDebug_GL.cpp:303-311 | the count is the number of local and global interactions over all lights |
| RenderDebugGL.RetargetForOverdraw | neo/renderer/OpenGL/RenderDebug_GL.cpp:316-334 | the new list is the substituted draw surfaces followed by the substituted interactions, light by light |
| RenderDebugGL.ShowOverdraw | neo/renderer/OpenGL/RenderDebug_GL.cpp:283-350 | mode 0 or no overdraw material leaves the view alone; otherwise every light loses its interactions and the view draws the surfaces (mode 1), the interactions (mode 2) or both (mode 3), all substituted, from an allocation large enough for them |
| RenderDebugGL.Max3 | neo/renderer/OpenGL/RenderDebug_GL.cpp:375-381 | the intensity is the largest of the three channels |
| RenderDebugGL.IntensityZeroLosesRed | neo/renderer/OpenGL/RenderDebug_GL.cpp:382-385 | as written an intensity of 0 stores 2*(128-0) = 256 into a byte, which wraps to black instead of full red; every other intensity agrees with the corrected colour |
| RenderDebugGL.IntensityColor | neo/renderer/OpenGL/RenderDebug_GL.cpp:382-390 | every channel is a byte; below 128 the colour has red and no blue, from 128 on no red, and above 128 some blue |
| RenderDebugGL.IntensityShading | neo/renderer/OpenGL/RenderDebug_GL.cpp:369-390 | the colour shades from red through green to blue: below 128 red falls and green rises, from 128 on green falls and blue rises |
| RenderDebugGL.ShownPixel | neo/renderer/OpenGL/RenderDebug_GL.cpp:373-390 | a pixel becomes the colour of its largest channel, alpha kept |
| RenderDebugGL.ShowIntensity | neo/renderer/OpenGL/RenderDebug_GL.cpp:362-391 | every pixel of the readback is replaced by its shown colour |
| RenderDebugGL.ListedBeforeMeans | neo/renderer/OpenGL/RenderDebug_GL.cpp:1361-1367 | an edge is listed by the first t triangles exactly when one of their three edges is it |
| RenderDebugGL.Triangles | neo/renderer/OpenGL/RenderDebug_GL.cpp:1361-1366 | the index list holds |indexes| / 3 triangles, and triangle t has the three indexes from position 3t as its corners |
| RenderDebugGL.ListsEdgeListedBefore | neo/renderer/OpenGL/RenderDebug_GL.cpp:1368-1379 | some triangle lists an edge exactly when the scan over all the triangles, in order, meets it |
| RenderDebugGL.HasBackwardListing | neo/renderer/OpenGL/RenderDebug_GL.cpp:1369-1379 | the search finds exactly the edges some triangle lists in the opposite direction |
| RenderDebugGL.ListedMono | neo/renderer/OpenGL/RenderDebug_GL.cpp:1361-1367 | an edge listed among the first t triangles stays listed among more |
| RenderDebugGL.Kept | neo/renderer/OpenGL/RenderDebug_GL.cpp:1382-1385 | each edge is drawn at most once per listing |
| RenderDebugGL.ShowEdges | neo/renderer/OpenGL/RenderDebug_GL.cpp:1361-1413 | the yellow lines are exactly UnsharedEdges of the index list; a surface without silhouette edges draws no red line, otherwise the red lines are the silhouette edges touching the plane numbered after the last triangle, in list order |
| RenderDebugGL.ShowUnsharedEdges | neo/renderer/OpenGL/RenderDebug_GL.cpp:1361-1388 | the lines drawn in the yellow pass are exactly UnsharedEdges of the index list |
| RenderDebugGL.ShowTriangleEdges | neo/renderer/OpenGL/RenderDebug_GL.cpp:1362-1387 | the three corners of one triangle emit exactly the edges it keeps: each of its edges, in corner order, that no triangle lists backwards |
| RenderDebugGL.UnsharedEdgesStep | neo/renderer/OpenGL/RenderDebug_GL.cpp:1361-1388 | adding one triangle to the yellow pass keeps this true: an edge is drawn exactly when one of the triangles so far lists it and no triangle lists it backwards |
| RenderDebugGL.DanglingEdgesExact | neo/renderer/OpenGL/RenderDebug_GL.cpp:1390-1413 | a segment is drawn in red exactly when some listed silhouette edge between those vertexes has the dangling plane on one side; there are no more red segments than silhouette edges |
| RenderDebugGL.TriangleKeptExact | neo/renderer/OpenGL/RenderDebug_GL.cpp:1362-1387 | a triangle contributes an edge exactly when it lists it and no triangle lists it backwards |
| RenderDebugGL.UnsharedEdgesExact | neo/renderer/OpenGL/RenderDebug_GL.cpp:1361-1388 | the first t triangles draw exactly their edges that no triangle lists backwards |
| RenderDebugGL.ShowEdgesDrawsBoundary | neo/renderer/OpenGL/RenderDebug_GL.cpp:1332-1388 | an edge is drawn in yellow exactly when some triangle lists it and none lists it the other way round |
| RenderDebugGL.TgaHeader | neo/renderer/OpenGL/RenderDebug_GL.cpp:2445-2450 | the header is 18 bytes |
| RenderDebugGL.TgaHeaderReadsBack | neo/renderer/OpenGL/RenderDebug_GL.cpp:2445-2450 | for sizes below 65536 the header says uncompressed, 24 bits, and reads back the width and height |
| RenderDebugGL.StencilShot | neo/renderer/OpenGL/RenderDebug_GL.cpp:2419-2451 | the file is the TGA header followed by three copies of each stencil byte |
| RenderDebugGL.WriteTgaHeader | neo/renderer/OpenGL/RenderDebug_GL.cpp:2445-2450 | the buffer's first 18 bytes become the header and the rest is untouched |
| RenderDebugGL.DebugLineWidth | neo/renderer/OpenGL/RenderDebug_GL.cpp:1665-1670 | the width is r_debugLineWidth clamped into 1..10, the value of that range nearest to it |
| RenderDebugGL.RowPitch | neo/renderer/OpenGL/RenderDebug_GL.cpp:2399 | a row of w RGB pixels is padded to the least multiple of 4 that holds it |
| RenderDebugGL.TileExtent | neo/renderer/OpenGL/RenderDebug_GL.cpp:2387-2394 | a tile is the system size, cut at the image's edge, and never empty inside the image |
| RenderDebugGL.TileHoldsPixel | neo/renderer/OpenGL/RenderDebug_GL.cpp:2369-2394 | every pixel lies in the tile that starts at its multiple of the system size |
| RenderDebugGL.TileReadFits | neo/renderer/OpenGL/RenderDebug_GL.cpp:2364-2399 | a padded tile read fits the temporary buffer of (sysWidth + 3) * sysHeight * 3 bytes |
| RenderDebugGL.ClampByte | neo/renderer/OpenGL/RenderDebug_GL.cpp:1991-1995 | a bar value is clamped into 0..255 |
| RenderDebugGL.GammaBiasBars | neo/renderer/OpenGL/RenderDebug_GL.cpp:1979-2004 | nothing is drawn unless r_testGammaBias is positive; then eight bias rows of four bars each get BarValue |
| RenderDebugGL.GammaBarsNeedNoClamp | neo/renderer/OpenGL/RenderDebug_GL.cpp:1986-1995 | each bar is 64, 96, 144 or 216 plus a bias from -40 to 30, always within 24..246, so the clamp never acts |
| RenderProgs.ParmNameNotBracket | neo/renderer/RenderProgs.cpp:40-118 | every parameter name is at least two characters, so none can be taken for the closing bracket |
| RenderProgs.ParmNamesDistinct | neo/renderer/RenderProgs.cpp:40-118 | the name table gives every render parameter its own name |
| RenderProgs.ParmIndexFrom | neo/renderer/Vulkan/RenderProgs_VK.cpp:1006-1011 | the search returns the first parameter from p on whose name is exactly the token, and none only when no such parameter exists |
| RenderProgs.ParmIndex | neo/renderer/Vulkan/RenderProgs_VK.cpp:1006-1015 | a token names a parameter exactly when some table entry equals it, and the first such entry is returned |
| RenderProgs.ParmIndexOfName | neo/renderer/RenderProgs.cpp:40-118 | looking up a parameter's own name finds that parameter |
| RenderProgs.BindingOf | neo/renderer/Vulkan/RenderProgs_VK.cpp:51-54 | a binding token is "ubo" or "sampler"; any other token names no binding |
| RenderProgs.BuiltinUsesJointsIffSkinned | neo/renderer/Vulkan/RenderProgs_VK.cpp:601-674 | the built-in programs flagged as using joints are exactly those whose shader name ends in "_skinned" |
| RenderProgs.ParseUniforms | neo/renderer/Vulkan/RenderProgs_VK.cpp:1003-1018 | a parsed uniform list consumes tokens up to and including its "]" and holds only valid parameter indices |
| RenderProgs.ParseBindings | neo/renderer/Vulkan/RenderProgs_VK.cpp:1024-1039 | a parsed binding list consumes tokens up to and including its "]" |
| RenderProgs.ParseLayout | neo/renderer/Vulkan/RenderProgs_VK.cpp:1000-1041 | a layout parses only when it starts with "uniforms", and its parameter indices are all valid |
| RenderProgs.ParmNames | neo/renderer/RenderProgs.cpp:40-118 | writing a parameter list gives one name per parameter |
| RenderProgs.BindingNames | neo/renderer/Vulkan/RenderProgs_VK.cpp:51-54 | writing a binding list gives each binding's name, in order |
| RenderProgs.ParseUniformsCons | neo/renderer/Vulkan/RenderProgs_VK.cpp:1003-1018 | a valid name before a parsable rest adds its parameter at the front |
| RenderProgs.ParseUniformsBad | neo/renderer/Vulkan/RenderProgs_VK.cpp:1013-1015 | a token that names no parameter fails with InvalidUniform naming that token |
| RenderProgs.ParseUniformsOfNames | neo/renderer/Vulkan/RenderProgs_VK.cpp:1003-1018 | the names of any parameter list, closed by "]", parse back to that list and leave the tokens after the bracket |
| RenderProgs.ParseBindingsOfNames | neo/renderer/Vulkan/RenderProgs_VK.cpp:1024-1039 | the names of any binding list, closed by "]", parse back to that list |
| RenderProgs.ParseLayoutSteps | neo/renderer/Vulkan/RenderProgs_VK.cpp:1000-1041 | a layout parse is the uniform parse followed by the binding parse on what remains |
| RenderProgs.LayoutRoundTrip | neo/renderer/Vulkan/RenderProgs_VK.cpp:1000-1041 | reading back a written layout, whatever follows it, gives the same uniforms and bindings in order |
| RenderProgs.ParseLayoutUniformsFail | neo/renderer/Vulkan/RenderProgs_VK.cpp:1013-1015 | a uniform list that fails makes the layout fail with the same error |
| RenderProgs.InvalidUniformRejected | neo/renderer/Vulkan/RenderProgs_VK.cpp:1013-1015 | a layout with an unknown uniform after valid ones fails with InvalidUniform naming it |
| RenderProgs.InvalidUniformStops | neo/renderer/Vulkan/RenderProgs_VK.cpp:1013-1015 | parsing stops at the first unknown uniform, with that token as the error |
| RenderProgs.Group | neo/renderer/RenderProgs.cpp:146-150 | each group holds four floats |
| RenderProgs.RenderProgManager.constructor | neo/renderer/Vulkan/RenderProgs_VK.cpp:583-591 | the bookkeeping starts at zero, every parameter is the zero vector (as Init leaves it) and no shader or program exists |
| RenderProgs.RenderProgManager.GetRenderParm | neo/renderer/RenderProgs.cpp:126-128 | a parameter's value has four components |
| RenderProgs.RenderProgManager.SetRenderParm | neo/renderer/RenderProgs.cpp:135-139 | parameter rp takes the first four values, every other parameter keeps its value, and nothing else changes |
| RenderProgs.RenderProgManager.SetRenderParms | neo/renderer/RenderProgs.cpp:146-150 | parameters rp to rp+num-1 take consecutive groups of four values and all others keep theirs |
| RenderProgs.RenderProgManager.LoadShader | neo/renderer/Vulkan/RenderProgs_VK.cpp:957-1051 | an already loaded shader is left alone; otherwise a layout that fails reports its error, and one that parses records the module and appends its parameters and bindings; names, stages and everything else are kept |
| RenderProgs.RenderProgManager.FindShader | neo/renderer/RenderProgs.cpp:157-174 | the index returned names a shader of the stage whose name matches the name without extension, ignoring case; a new shader is appended exactly when no existing one matched; shader names and stages stay unique and nothing else changes |
| RenderProgs.UniqueByNameAndStage | neo/renderer/RenderProgs.cpp:157-174 | uniqueness of the shader list depends only on names and stages |
| RenderProgs.AppendKeepsUnique | neo/renderer/RenderProgs.cpp:167-171 | appending a shader no entry matches keeps the list unique |
| RenderProgsGL.SkipUntil | neo/renderer/OpenGL/RenderProgs_GL.cpp:327-329 | the position returned is just past the first ";" at or after the start, or the end of the input when there is none, and no earlier token is the searched one |
| RenderProgsGL.FirstAttrib | neo/renderer/OpenGL/RenderProgs_GL.cpp:344-352 | the row found carries the attribute class and the semantic, no earlier row does, and none is found exactly when no row from the start matches |
| RenderProgsGL.VaryingsLink | neo/renderer/OpenGL/RenderProgs_GL.cpp:58-135 | a vertex output and a fragment input with the same TEXCOORDn semantic both become vofi_TexCoordn, so the two stages link up |
| RenderProgsGL.Maker | neo/renderer/OpenGL/RenderProgs_GL.cpp:354-361 | the entry made for a member is declared exactly when no earlier entry has its GLSL name |
| RenderProgsGL.ParseMembersDeclares | neo/renderer/OpenGL/RenderProgs_GL.cpp:318-364 | the members parse keeps the entries it was given in front, marks each new entry declared exactly when it is the first with its GLSL name, and never introduces a second declaration of a name |
| RenderProgsGL.MembersNoDuplicates | neo/renderer/OpenGL/RenderProgs_GL.cpp:354-363 | the members parse adds no second declaration of a GLSL name to a list that had none |
| RenderProgsGL.ParseInOutStruct | neo/renderer/OpenGL/RenderProgs_GL.cpp:315-367 | the loop reads the struct into the list and ends at the position the struct parse specifies |
| RenderProgsGL.ReadMember | neo/renderer/OpenGL/RenderProgs_GL.cpp:319-363 | one member is consumed (the position advances) and the rest of the parse from the new position gives the same result as from the old |
| RenderProgsGL.NotYetDeclared | neo/renderer/OpenGL/RenderProgs_GL.cpp:355-361 | the member is declared exactly when no earlier entry has its GLSL name |
| RenderProgsGL.IndentOpen | neo/renderer/OpenGL/RenderProgs_GL.cpp:491-498 | an opening brace adds one tab to the indentation prefix, within the 127 characters the 128-byte buffer holds, and the prefix then ends in a tab |
| RenderProgsGL.IndentClose | neo/renderer/OpenGL/RenderProgs_GL.cpp:500-503 | a closing brace drops the last character of the prefix, never going below empty |
| RenderProgsGL.IndentBalanced | neo/renderer/OpenGL/RenderProgs_GL.cpp:491-503 | a brace and its matching closing brace leave the indentation as it was below the cap |
| RenderProgsGL.IndentSaturates | neo/renderer/OpenGL/RenderProgs_GL.cpp:495-497 | at the 127-character cap a further opening brace leaves the indentation unchanged |
| RenderProgsGL.Sep | neo/renderer/OpenGL/RenderProgs_GL.cpp:455 | the white space written before a token is nothing, one space or the current indentation prefix |
| RenderProgsGL.IndexOf | neo/renderer/OpenGL/RenderProgs_GL.cpp:525-532 | the index found holds the name and no earlier one does; none is found exactly when the name is absent |
| RenderProgsGL.FindCg | neo/renderer/OpenGL/RenderProgs_GL.cpp:545-552 | the entry found has the Cg member name and no earlier one does; none is found exactly when no entry has it |
| RenderProgsGL.UniformDecls | neo/renderer/OpenGL/RenderProgs_GL.cpp:393-405 | the run of uniform float4 declarations appends names after those already collected and stops at a token that opens no further declaration |
| RenderProgsGL.Step | neo/renderer/OpenGL/RenderProgs_GL.cpp:390-608 | one pass of the outer loop advances, keeps the conversion state well formed and only appends to the uniform list and the program text |
| RenderProgsGL.Run | neo/renderer/OpenGL/RenderProgs_GL.cpp:390-608 | the outer loop reads to the end of the input, keeps the indentation within the buffer and only appends to the uniform list |
| RenderProgsGL.RunExtendsProgram | neo/renderer/OpenGL/RenderProgs_GL.cpp:390-608 | no pass of the loop removes program text already written |
| RenderProgsGL.UniformDeclCollected | neo/renderer/OpenGL/RenderProgs_GL.cpp:393-395 | a uniform float4 declaration appends its name right after the names collected before it |
| RenderProgsGL.StorageKeywordRemoved | neo/renderer/OpenGL/RenderProgs_GL.cpp:454-458 | static, and const inside main, are dropped: only the separating white space is written and the next token is glued on |
| RenderProgsGL.ConstKeptOutsideMain | neo/renderer/OpenGL/RenderProgs_GL.cpp:484-488 | const outside main is written through unchanged after its separator |
| RenderProgsGL.TypeConverted | neo/renderer/OpenGL/RenderProgs_GL.cpp:509-521 | a Cg type token is written as its GLSL type after its separator |
| RenderProgsGL.BuiltinRenamed | neo/renderer/OpenGL/RenderProgs_GL.cpp:592-604 | frac, lerp, rsqrt, ddx and ddy are written as fract, mix, inversesqrt, dFdx and dFdy unless a uniform has that name or a member access follows |
| RenderProgsGL.UniformRewritten | neo/renderer/OpenGL/RenderProgs_GL.cpp:523-535 | a use of a collected uniform becomes the uniform-array element at that name's first position, and the final uniform list holds the name at that position |
| RenderProgsGL.MemberResolved | neo/renderer/OpenGL/RenderProgs_GL.cpp:538-584 | vertex.m and fragment.m become the GLSL name of input m, result.m that of output m, consuming three tokens |
| RenderProgsGL.OpenBraceIndents | neo/renderer/OpenGL/RenderProgs_GL.cpp:491-498 | an opening brace is written after its separator and the indentation grows by one tab |
| RenderProgsGL.CloseBraceOutdents | neo/renderer/OpenGL/RenderProgs_GL.cpp:500-506 | a closing brace is written at one tab less, which is the indentation from then on |
| RenderProgsGL.RunKeepsNoDuplicates | neo/renderer/OpenGL/RenderProgs_GL.cpp:408-449 | the whole loop keeps both the in and the out list free of a second declaration of a name |
| RenderProgsGL.ConvertedNoDuplicates | neo/renderer/OpenGL/RenderProgs_GL.cpp:408-449 | for every input the converted program declares each in and out variable once |
| RenderProgsGL.ProgramBodyShape | neo/renderer/OpenGL/RenderProgs_GL.cpp:620-624 | after the stage header comes the rewritten text, preceded by the uniform-array declaration exactly when some uniform was found |
| RenderProgsGL.ConvertCG2GLSL | neo/renderer/OpenGL/RenderProgs_GL.cpp:374-633 | the method returns the program text and uniforms text of the conversion specification |
| RenderProgsGL.RunConversion | neo/renderer/OpenGL/RenderProgs_GL.cpp:390-608 | the token loop ends in the final state of the conversion specification |
| RenderProgsGL.WriteUniforms | neo/renderer/OpenGL/RenderProgs_GL.cpp:626-630 | the uniforms text is each name on its own line followed by an empty line |
| RenderProgsGL.ReadUniformDecls | neo/renderer/OpenGL/RenderProgs_GL.cpp:393-405 | the declaration loop ends where the declaration-run specification says, with its uniform list |
| RenderProgsGL.RewriteToken | neo/renderer/OpenGL/RenderProgs_GL.cpp:408-608 | the rules of one pass applied to the token give the state the rule specification gives |
| RenderProgsGL.RewriteText | neo/renderer/OpenGL/RenderProgs_GL.cpp:509-607 | the type, uniform, member and intrinsic rules applied to a token give the state the text-rule specification gives |
| RenderProgsGL.AppendDecls | neo/renderer/OpenGL/RenderProgs_GL.cpp:412-416 | the declaration loop after a struct appends one line per declared entry |
| RenderProgsGL.WordLength | neo/renderer/OpenGL/RenderProgs_GL.cpp:979-981 | a token runs up to the first white space: all its characters are non-blank and the next one, if any, is blank |
| RenderProgsGL.Words | neo/renderer/OpenGL/RenderProgs_GL.cpp:979-981 | every token the lexer reads from the uniforms text is a non-empty word without white space |
| RenderProgsGL.WordsAppend | neo/renderer/OpenGL/RenderProgs_GL.cpp:979-981 | text that ends in white space tokenises apart from what follows it |
| RenderProgsGL.UniformsFileRoundTrip | neo/renderer/OpenGL/RenderProgs_GL.cpp:626-630 | the uniforms file written by the conversion reads back as the collected uniform names, in order |
| RenderProgsGL.LookupAll | neo/renderer/OpenGL/RenderProgs_GL.cpp:981-994 | a successful lookup gives one entry per word |
| RenderProgsGL.LookupAllFails | neo/renderer/OpenGL/RenderProgs_GL.cpp:989-991 | the lookup fails exactly when some word is not found |
| RenderProgsGL.UniformParms | neo/renderer/OpenGL/RenderProgs_GL.cpp:981-994 | a successful read gives, for each uniform token, the render parameter whose GLSL name it is |
| RenderProgsGL.UniformParmsFails | neo/renderer/OpenGL/RenderProgs_GL.cpp:989-991 | reading fails (the invalid-uniform error) exactly when some token names no render parameter |
| RenderProgsGL.UniformParmsOfNames | neo/renderer/OpenGL/RenderProgs_GL.cpp:981-994 | the GLSL names of a list of render parameters read back as that list |
| RenderProgsGL.ParmNameReadsBack | neo/renderer/OpenGL/RenderProgs_GL.cpp:983-987 | element k of the names of a parameter list reads back as parameter k |
| RenderProgsGL.HeatHazeAsWrittenNeverMatches | neo/renderer/OpenGL/RenderProgs_GL.cpp:1137-1150 | the program name has its extension stripped, so the comparison with names ending in .vfp never succeeds for any shader name without a dot |
| RenderProgsGL.HeatHazeMissed | neo/renderer/OpenGL/RenderProgs_GL.cpp:1146-1150 | the heatHaze shader passes the intended test but not the written one |
| RenderProgsGL.LinkedProg | neo/renderer/OpenGL/RenderProgs_GL.cpp:1137-1150 | a linked program is named after its vertex shader without extension, records its GL object and shader pair, and uses joints (optional skinning) exactly when it did before or is a heat-haze program |
| RenderProgsGL.WithArrayLocation | neo/renderer/OpenGL/RenderProgs_GL.cpp:1115-1120 | only the named shader's uniform-array location changes, and only when it has uniforms |
| RenderProgsGL.GLProgramFor | neo/renderer/OpenGL/RenderProgs_GL.cpp:862-868 | the program found is built from the shader pair and no earlier one is; none is found exactly when no program has the pair |
| RenderProgsGL.AddUnique | neo/renderer/OpenGL/RenderProgs_GL.cpp:787 | the state bits are in the result, the earlier states keep their order in front, nothing is added when already present, and a duplicate-free list stays duplicate-free |
| RenderProgsGL.ArrayValues | neo/renderer/OpenGL/RenderProgs_GL.cpp:791-798 | a shader with a uniform array receives, at element i, the value of the render parameter behind its uniform i; a shader without one receives nothing |
| RenderProgsGL.UniformArrayCarriesNamedParm | neo/renderer/OpenGL/RenderProgs_GL.cpp:981-994 | for a converted shader, element i of the uniform array the GLSL text reads as its i-th uniform receives the value of the render parameter with that name |
| RenderProgsGL.GLProgManager.constructor | neo/renderer/OpenGL/RenderProgs_GL.cpp:640-643 | no program is current and there are no shaders or programs |
| RenderProgsGL.GLProgManager.ParmIndexOf | neo/renderer/OpenGL/RenderProgs_GL.cpp:982-987 | the scan returns the index of the parameter named by the token, or -1 when none is |
| RenderProgsGL.GLProgManager.ReadUniformParms | neo/renderer/OpenGL/RenderProgs_GL.cpp:981-994 | the token loop gives the render parameters of the uniform-read specification, failing at an unknown token |
| RenderProgsGL.GLProgManager.LoadShader | neo/renderer/OpenGL/RenderProgs_GL.cpp:882-1045 | an already loaded shader is left alone; otherwise it loads exactly when every uniform token names a render parameter, getting those parameters and its GL object, and a failure changes nothing |
| RenderProgsGL.GLProgManager.LoadGLSLProgram | neo/renderer/OpenGL/RenderProgs_GL.cpp:1052-1152 | an already linked program is left alone; a failed link is an error that changes nothing; a successful link sets the program as specified and the shaders' uniform-array locations |
| RenderProgsGL.GLProgManager.FindProgram | neo/renderer/OpenGL/RenderProgs_GL.cpp:861-875 | the first program with the shader pair is reused and loaded; otherwise a program with the given name is appended and loaded; on success the returned program has a GL object and is the first with the pair; other programs are unchanged |
| RenderProgsGL.GLProgManager.Init | neo/renderer/OpenGL/RenderProgs_GL.cpp:650-719 | the built-in programs load exactly when every link succeeds, and then program i is built-in i linked from its shaders with its vertex layout and joints flag |
| RenderProgsGL.GLProgManager.LoadBuiltin | neo/renderer/OpenGL/RenderProgs_GL.cpp:692-706 | one pass of the init loop links built-in i and gives it the built-in's vertex layout, leaving the other programs unchanged |
| RenderProgsGL.GLProgManager.MarkSkinned | neo/renderer/OpenGL/RenderProgs_GL.cpp:710-718 | exactly the nine skinned built-in programs are marked as using joints |
| RenderProgsGL.GLProgManager.BindProgram | neo/renderer/OpenGL/RenderProgs_GL.cpp:758-766 | the program becomes current and nothing else changes |
| RenderProgsGL.GLProgManager.Unbind | neo/renderer/OpenGL/RenderProgs_GL.cpp:773-776 | no program is current and nothing else changes |
| RenderProgsGL.GLProgManager.CommitCurrent | neo/renderer/OpenGL/RenderProgs_GL.cpp:783-807 | the state bits are recorded once with the current program and each stage's uniform array receives the values of its shader's parameters |
| RenderProgsGL.GLProgManager.CommitArray | neo/renderer/OpenGL/RenderProgs_GL.cpp:791-798 | the copy loop gives the uniform-array values the specification gives |
| RenderProgsGL.GLProgramForKept | neo/renderer/OpenGL/RenderProgs_GL.cpp:862-867 | reloading the program found for a pair keeps it the first program with that pair |
| RenderProgsGL.MarkedIsLoaded | neo/renderer/OpenGL/RenderProgs_GL.cpp:705-718 | a staged skinned built-in marked as using joints is fully loaded |
| RenderProgsGL.BuiltinNotHeatHaze | neo/renderer/OpenGL/RenderProgs_GL.cpp:658-689 | no built-in program is a heat-haze program, so none gets joints from the name test |
| RenderProgsVK.GetDescriptorType | neo/renderer/Vulkan/RenderProgs_VK.cpp:201-209 | a binding becomes a uniform-buffer descriptor exactly when it is a uniform-buffer binding (otherwise a combined image sampler) |
| RenderProgsVK.CreateDescriptorSetLayout | neo/renderer/Vulkan/RenderProgs_VK.cpp:216-246 | the layout numbers the bindings 0..n-1 with the vertex shader's before the fragment shader's, each with its descriptor type and stage, and the program's binding list gains their concatenation |
| RenderProgsVK.FrontOpsIgnoreOtherBits | neo/renderer/Vulkan/RenderProgs_VK.cpp:461 | the front stencil operations decode the same from the whole state word as from its front-operation field |
| RenderProgsVK.DynamicStates | neo/renderer/Vulkan/RenderProgs_VK.cpp:510-520 | scissor and viewport always come first, depth bias is dynamic exactly when requested and depth bounds exactly when requested |
| RenderProgsVK.PipelineStagesAndDynamic | neo/renderer/Vulkan/RenderProgs_VK.cpp:491-520 | the vertex stage is always present, the fragment stage exactly when there is a fragment module, and depth bias and depth bounds are dynamic exactly when enabled |
| RenderProgsVK.PipelineBlendAndDepth | neo/renderer/Vulkan/RenderProgs_VK.cpp:339-451 | blending is on exactly when a blend field is set, depth writes follow the depth mask, the depth-bounds test needs the device feature and a depth test, and culling is off exactly for two-sided state |
| RenderProgsVK.PipelineStencil | neo/renderer/Vulkan/RenderProgs_VK.cpp:455-479 | the stencil test runs exactly when a stencil function or operation is set; the back face repeats the front unless separate stencil is set, when it decodes the back-operation field |
| RenderProgsVK.StencilStateFields | neo/renderer/Vulkan/RenderProgs_VK.cpp:461-467 | the front and back operation fields of an encoded stencil state read back as the operations encoded |
| RenderProgsVK.StencilFacesRoundTrip | neo/renderer/Vulkan/RenderProgs_VK.cpp:455-479 | any stencil configuration encoded into a state word decodes to the same front face, and to the same back face except that all-KEEP back operations fall back to the front |
| RenderProgsVK.PipelineStencilRoundTrip | neo/renderer/Vulkan/RenderProgs_VK.cpp:455-479 | the same round trip read from the whole pipeline description |
| RenderProgsVK.KeepOpsEncodeToZero | neo/renderer/Vulkan/RenderProgs_VK.cpp:460-479 | only all-KEEP operations encode to an empty back field, which is why they read back as the front |
| RenderProgsVK.StateMinusStencilPipeline | neo/renderer/Vulkan/RenderProgs_VK.cpp:339-479 | the pipeline of the state with its stencil bits cleared has the stencil test off and the same blending, depth test and culling as the full state |
| RenderProgsVK.CachedPipeline | neo/renderer/Vulkan/RenderProgs_VK.cpp:562-566 | a cached pipeline is found exactly when some entry was built for the state bits, and it is such an entry's pipeline |
| RenderProgsVK.CachedAfterAppend | neo/renderer/Vulkan/RenderProgs_VK.cpp:568-573 | after appending an entry, a lookup hits the old entry if there was one, else the new one when its bits match |
| RenderProgsVK.GetPipeline | neo/renderer/Vulkan/RenderProgs_VK.cpp:561-576 | a cached pipeline is returned unchanged; on a miss the created pipeline is appended and returned; afterwards the lookup finds it, and each state value stays cached at most once |
| RenderProgsVK.ProgramFor | neo/renderer/Vulkan/RenderProgs_VK.cpp:915-921 | the program found is built from the shader pair and no earlier one is; none is found only when no program has the pair |
| RenderProgsVK.FindProgram | neo/renderer/Vulkan/RenderProgs_VK.cpp:914-950 | the first program with the pair is returned unchanged; otherwise a program named name with the two shaders' bindings is appended, using joints and optional skinning exactly when the vertex shader is a heat-haze shader; either way the returned index is the first with the pair and nothing else changes |
| RenderProgsVK.ProgramForFirst | neo/renderer/Vulkan/RenderProgs_VK.cpp:915-921 | the first program with the pair is the one the search finds |
| RenderProgsVK.BindProgram | neo/renderer/Vulkan/RenderProgs_VK.cpp:759-766 | the program becomes current and nothing else changes |
| RenderProgsVK.StartFrame | neo/renderer/Vulkan/RenderProgs_VK.cpp:745-752 | the counter advances by one, the frame slot changes, the descriptor-set index and parameter offset restart at zero, and nothing else changes |
| RenderProgsVK.ConsecutiveSlotsDiffer | neo/renderer/Vulkan/RenderProgs_VK.cpp:747 | two consecutive frames never share a slot |
| RenderProgsVK.AllocParmBlockBuffer | neo/renderer/Vulkan/RenderProgs_VK.cpp:773-788 | the block starts at the current offset, its size is 16 bytes per parameter rounded up to the alignment, the offset advances by the size and stays aligned, and block element i holds parameter i's value |
| RenderProgsVK.BuildBuiltin | neo/renderer/Vulkan/RenderProgs_VK.cpp:640-662 | built-in program i is built from the shaders found for its stages, with their descriptor layout, not yet using joints; the shader list only grows |
| RenderProgsVK.MarkSkinnedPrograms | neo/renderer/Vulkan/RenderProgs_VK.cpp:666-674 | exactly the skinned built-in programs are marked as using joints |
| RenderProgsVK.Init | neo/renderer/Vulkan/RenderProgs_VK.cpp:598-689 | without an error, there are MAX_BUILTINS programs, each built from its stage shaders and using joints exactly when skinned |
| RenderWorld.SimdRoundJoints | neo/renderer/RenderWorld.h:76 | the joint count rounded up to an even number, a 32-bit value: n or n + 1 for counts below INT32_MAX, wrapping to INT32_MIN at INT32_MAX |
| RenderWorld.SimdRoundJointsIdempotent | neo/renderer/RenderWorld.h:76 | rounding an already rounded count changes nothing |
| RenderWorld.SimdInitLastJoint | neo/renderer/RenderWorld.h:77 | for an odd count the padding joint becomes a copy of the last joint and nothing else changes; an even count leaves the array alone |
| RenderWorld.SlotPointer | neo/renderer/RenderWorld.h:344-346 | an untested cell holds NULL, a cell with no interaction holds INTERACTION_EMPTY (1), and a real interaction holds an address above 1 |
| RenderWorld.RowCol | neo/renderer/RenderWorld.cpp:245-247 | the column of a cell is within the table width |
| RenderWorld.RowColAt | neo/renderer/RenderWorld.cpp:247 | cell l * width + e sits at row l, column e |
| RenderWorld.Resized | neo/renderer/RenderWorld.cpp:241-249 | the resized table has newW * newH cells |
| RenderWorld.ResizedKeeps | neo/renderer/RenderWorld.cpp:245-249 | every old cell (l, e) is found at l * newW + e of the new table |
| RenderWorld.ResizedClearsRest | neo/renderer/RenderWorld.cpp:244 | every cell outside the old rectangle starts out untested |
| RenderWorld.AddRef | neo/renderer/RenderWorld.cpp:1355-1414 | adding a reference keeps the number of owners and areas |
| RenderWorld.AddRefConsistent | neo/renderer/RenderWorld.cpp:1355-1414 | adding a reference keeps owner chains and area lists mirror images of each other and puts the area on the owner's chain and the owner on the area's list |
| RenderWorld.Without | neo/renderer/RenderWorld.cpp:1355-1414 | removing an owner from a list keeps exactly the other elements |
| RenderWorld.WithoutNoDuplicates | neo/renderer/RenderWorld.cpp:1355-1414 | removing an element keeps a duplicate-free list duplicate-free |
| RenderWorld.RemoveOwnerConsistent | neo/renderer/RenderWorld.cpp:391 | freeing an owner's references keeps the links consistent and leaves the owner on no area list |
| RenderWorld.PadLinks | neo/renderer/RenderWorld.cpp:299-301 | the owner list is grown to the requested length |
| RenderWorld.PadLinksConsistent | neo/renderer/RenderWorld.cpp:299-301 | padding keeps the links consistent, keeps every old chain, gives new slots empty chains and leaves the area lists alone |
| RenderWorld.AddRefs | neo/renderer/RenderWorld.cpp:366 | adding an owner's references keeps the owner and area counts and the links consistent |
| RenderWorld.AddRefsSpec | neo/renderer/RenderWorld.cpp:366 | every requested area ends up on the owner's chain, its old areas stay, it gains no other area, and no other owner's chain changes |
| RenderWorld.NoOwnersNoRefs | neo/renderer/RenderWorld_load.cpp:683-716 | once no owner references an area, every area list is empty |
| RenderWorld.NewEntityDef | neo/renderer/RenderEntity.cpp:39-60 | a new def has the given handle, parms and frame, no decals, no overlays, no dynamic model and no reference bounds |
| RenderWorld.FirstNull | neo/renderer/RenderWorld.cpp:261 | the index found is the first NULL slot, or -1 when every slot is live |
| RenderWorld.Padded | neo/renderer/RenderWorld.cpp:299-301 | the list is grown with NULL entries until it indexes the handle, keeping the old entries |
| RenderWorld.EntityUnlinkedSpec | neo/renderer/RenderWorld.cpp:299-347 | before the new references are made, the handle holds the given parms, the list only grew by NULL slots, no other def changed, and a relinked def has no references left |
| RenderWorld.EntityUpdatedDefs | neo/renderer/RenderWorld.cpp:284-367 | after the update the handle holds the given parms and its own index, no other def changed, and decal and overlay slots are kept only from the old def |
| RenderWorld.EntityUpdatedLinks | neo/renderer/RenderWorld.cpp:284-367 | after the update the links are consistent, no other def's chain changed, and a relinked def references exactly the given areas (none when its model has no drawing surfaces); otherwise the links are unchanged |
| RenderWorld.StoredLightParms | neo/renderer/RenderWorld.cpp:499-510 | the stored parms keep the shape and shader, spectrum lights lose their shadows, and a moved light loses its prelight model |
| RenderWorld.LightUnlinkedSpec | neo/renderer/RenderWorld.cpp:468-500 | before the new references are made, the handle holds the stored parms and the new frame, the list only grew, and a relinked light has no references left |
| RenderWorld.LightUpdatedDefs | neo/renderer/RenderWorld.cpp:457-515 | after the update the handle holds the stored parms and the new frame, and no other light changed |
| RenderWorld.LightUpdatedLinks | neo/renderer/RenderWorld.cpp:457-515 | after the update the links are consistent, no other light's chain changed, and a relinked light references exactly the given areas; an unchanged light keeps its links |
| RenderWorld.OldestSlot | neo/renderer/RenderWorld.cpp:712-719 | the slot found has the smallest start time and is the first of equal ones |
| RenderWorld.DetachDecal | neo/renderer/RenderWorld.cpp:721-727 | only the previous owner changes, and it no longer points at the reused decal slot |
| RenderWorld.DetachOverlay | neo/renderer/RenderWorld.cpp:751-757 | only the previous owner changes, and it no longer points at the reused overlay slot |
| RenderWorld.EntityUnlinkedKeepsOk | neo/renderer/RenderWorld.cpp:299-347 | unlinking an entity keeps the def lists, the links and the slot owners consistent |
| RenderWorld.LightUnlinkedKeepsOk | neo/renderer/RenderWorld.cpp:468-500 | unlinking a light keeps the def lists and links consistent |
| RenderWorld.World.constructor | neo/renderer/RenderWorld.cpp:172-200 | no defs, no areas and no interaction table; every decal and overlay slot is unowned at time 0 |
| RenderWorld.World.GetRenderEntity | neo/renderer/RenderWorld.cpp:410-425 | parms are returned exactly for a handle in range whose slot is live |
| RenderWorld.World.GetRenderLight | neo/renderer/RenderWorld.cpp:550-565 | parms are returned exactly for a handle in range whose slot is live |
| RenderWorld.World.ResizeInteractionTable | neo/renderer/RenderWorld.cpp:231-252 | the new table is sized by the def counts plus 100, at least as large as the old one, holds every old cell at its (light, entity) position and is cleared elsewhere; nothing else changes |
| RenderWorld.World.BuildResized | neo/renderer/RenderWorld.cpp:244-249 | the new cleared table and its copy loops give the resized table |
| RenderWorld.World.CopyRow | neo/renderer/RenderWorld.cpp:246-248 | the inner loop copies one row of old cells to its new position and leaves the rest of the table alone |
| RenderWorld.World.AddEntityRefToArea | neo/renderer/RenderWorld.cpp:1355-1385 | a NULL def is an error that changes nothing; otherwise the entity and the area reference each other once, and nothing else changes |
| RenderWorld.World.AddLightRefToArea | neo/renderer/RenderWorld.cpp:1392-1414 | the light and the area reference each other once, and nothing else changes |
| RenderWorld.World.PadDefs | neo/renderer/RenderWorld.cpp:299-301 | the entity list grows with NULL slots until the handle indexes it, each with an empty reference chain |
| RenderWorld.World.CreateEntityRefs | neo/renderer/RenderWorld.cpp:366 | the entity gains a reference to every given area and nothing else changes |
| RenderWorld.World.UnlinkEntityDef | neo/renderer/RenderWorld.cpp:299-347 | the first half of the update leaves the tables as the unlink specification says |
| RenderWorld.World.UnlinkEntityTables | neo/renderer/RenderWorld.cpp:299-347 | the unlink applied to the entity list and its links |
| RenderWorld.World.UpdateEntityDef | neo/renderer/RenderWorld.cpp:284-367 | with skipUpdates nothing happens; a NULL model without a callback or a handle outside [0, LUDICROUS_INDEX] is an error that changes nothing; otherwise the entities end as the update specification says and lights and the table are untouched |
| RenderWorld.World.CreateLightRefs | neo/renderer/RenderWorld.cpp:513 | the light gains a reference to every given area and nothing else changes |
| RenderWorld.World.UnlinkLightDef | neo/renderer/RenderWorld.cpp:468-500 | the first half of the light update leaves the tables as the unlink specification says |
| RenderWorld.World.UnlinkLightTables | neo/renderer/RenderWorld.cpp:468-500 | the unlink applied to the light list and its links |
| RenderWorld.World.UpdateLightDef | neo/renderer/RenderWorld.cpp:457-515 | with skipUpdates nothing happens; a handle outside [0, LUDICROUS_INDEX] is an error; otherwise the lights end as the update specification says and entities are untouched |
| RenderWorld.World.AppendEntityDef | neo/renderer/RenderWorld.cpp:263-267 | a NULL slot is appended, and an allocated table too narrow for it is widened |
| RenderWorld.World.AppendLightDef | neo/renderer/RenderWorld.cpp:437-440 | a NULL slot is appended, and an allocated table too short for it gains rows |
| RenderWorld.World.ReserveEntityHandle | neo/renderer/RenderWorld.cpp:261-268 | the handle is the first NULL slot, else a newly appended one; an allocated table still covers every def |
| RenderWorld.World.ReserveLightHandle | neo/renderer/RenderWorld.cpp:434-441 | the handle is the first NULL slot, else a newly appended one; an allocated table still covers every light |
| RenderWorld.World.AddEntityDef | neo/renderer/RenderWorld.cpp:259-273 | the first NULL slot is reused, else one is appended; after a successful update the handle holds the parms and no other def changed |
| RenderWorld.World.AddLightDef | neo/renderer/RenderWorld.cpp:432-445 | the first NULL slot is reused, else one is appended; after a successful update the handle holds the stored parms and no other light changed |
| RenderWorld.World.FreeEntityDef | neo/renderer/RenderWorld.cpp:377-403 | a bad or empty handle changes nothing; otherwise the def's references are removed from every area and its slot becomes NULL |
| RenderWorld.World.FreeLightDef | neo/renderer/RenderWorld.cpp:525-543 | a bad or empty handle changes nothing; otherwise the light's references are removed and its slot becomes NULL |
| RenderWorld.World.AllocDecal | neo/renderer/RenderWorld.cpp:711-734 | the slot started longest ago (the first of equal ones) is taken, given the new owner and start time, and no def points at it any more |
| RenderWorld.World.AllocOverlay | neo/renderer/RenderWorld.cpp:741-764 | the same policy over the overlay slots |
| RenderWorld.World.FreeDefs | neo/renderer/RenderWorld_load.cpp:683-716 | the table is dropped, every light and entity slot is NULL with no references, every area list is empty, and every decal and overlay slot is unowned at time 0 |
| RenderWorld.World.FreeAllLightDefs | neo/renderer/RenderWorld_load.cpp:689-696 | every live light is freed, leaving the list all NULL |
| RenderWorld.World.FreeAllEntityDefs | neo/renderer/RenderWorld_load.cpp:698-705 | every live entity is freed, leaving the list all NULL |
| RenderWorld.World.ResetSlots | neo/renderer/RenderWorld_load.cpp:707-715 | every decal and overlay slot loses its owner and start time |
| RenderWorld.World.SetupAreaRefs | neo/renderer/RenderWorld_load.cpp:378-387 | every area's entity and light reference list becomes empty, one per portal area |
| RenderWorld.RowOfResized | neo/renderer/RenderWorld.cpp:245-249 | row l of the resized table holds the old row's cells and then cleared cells |
| RenderWorld.ResizedFromRows | neo/renderer/RenderWorld.cpp:244-249 | a table that agrees with the resize on the copied rows and is cleared below them is the resize |
| RenderWorld.ChildArea | neo/renderer/RenderWorld.cpp:876-880 | a child of 0 is solid (-1) and a negative child c stands for area -1 - c |
| RenderWorld.PointInArea | neo/renderer/RenderWorld.cpp:860-890 | an empty tree gives -1; the area found is -1 (solid) or a leaf of the tree within the area count; an area out of range is the error |
| RenderWorld.ReachStep | neo/renderer/RenderWorld.cpp:916-933 | a node reaches what its front or back child reaches, or both when the bounds cross its plane |
| RenderWorld.BoundsInAreas | neo/renderer/RenderWorld.cpp:897-937 | the areas already listed stay, new ones are distinct and reached by the bounds, at most maxAreas are listed, and unless the array filled up every reached area is listed |
| RenderWorld.AddArea | neo/renderer/RenderWorld.cpp:905-912 | a leaf area is stored once, only when not yet listed and while there is room |
| RenderWorldIslands.LinkedSym | neo/renderer/RenderWorld_load.cpp:212-214 | being joined by a chain of vertex-sharing triangles is symmetric |
| RenderWorldIslands.LinkedTrans | neo/renderer/RenderWorld_load.cpp:212-214 | being joined by a chain of vertex-sharing triangles is transitive |
| RenderWorldIslands.Unlabelled | neo/renderer/RenderWorld_load.cpp:193-196 | the count of triangles without an island is at most the triangle count and is zero exactly when every triangle has one |
| RenderWorldIslands.LabelsAreIslands | neo/renderer/RenderWorld_load.cpp:193-224 | a finished numbering gives two triangles the same number exactly when a chain of vertex-sharing triangles joins them |
| RenderWorldIslands.MarkTriangle | neo/renderer/RenderWorld_load.cpp:216-219 | the three corners of the triangle get the island number and the triangle is marked visited, nothing else changes |
| RenderWorldIslands.ScanTriangles | neo/renderer/RenderWorld_load.cpp:208-222 | one scan from a queued triangle puts every unvisited triangle sharing a vertex with it into the island and the queue, keeping the numbering invariant |
| RenderWorldIslands.FloodIsland | neo/renderer/RenderWorld_load.cpp:204-223 | the breadth-first flood from a seed closes its island: every triangle linked to the seed ends up in it |
| RenderWorldIslands.LabelIslands | neo/renderer/RenderWorld_load.cpp:186-224 | every triangle gets an island from 1 to numIslands; two triangles share a number exactly when a chain of vertex-sharing triangles joins them; islands are numbered in order of their lowest triangle; each corner vertex carries its triangle's island and an unused vertex carries 0 |
| RenderWorldLoad.SubtreeNodes | neo/renderer/RenderWorld_load.cpp:622-631 | a subtree holds its root and only nodes numbered from the root on |
| RenderWorldLoad.CommonAreaSummarises | neo/renderer/RenderWorld_load.cpp:622-651 | a node's common area is the single area of the leaves under it, -1 (solid) when they are all solid, and CHILDREN_HAVE_MULTIPLE_AREAS when they hold two different areas |
| RenderWorldLoad.ChildValueSummarises | neo/renderer/RenderWorld_load.cpp:625-631 | the value a child contributes summarises the areas under that child, a leaf child standing for its own area |
| RenderWorldLoad.CommonChildrenArea | neo/renderer/RenderWorld_load.cpp:622-651 | the result is the node's common area, which summarises the areas under it; every node of its subtree stores its own common area and no other node's entry changes |
| RenderWorldLoad.ClearPortalStates | neo/renderer/RenderWorld_load.cpp:926-939 | every double portal is opened, the flood counter grows by one per area and attribute, and afterwards two areas share a number for an attribute exactly when portals open for it connect them |
| RenderWorldLoad.FloodAllAreas | neo/renderer/RenderWorld_load.cpp:933-938 | the flood loop over all areas leaves the connectivity numbers exact and advances the counter by one per area and attribute |
| RenderWorldLoad.FloodArea | neo/renderer/RenderWorld_load.cpp:934-937 | the three floods from area i extend the correct labelling to the first i + 1 areas for every attribute |
| RenderWorldLoad.FloodAttribute | neo/renderer/RenderWorld_load.cpp:935-936 | one flood with a fresh number extends the correct labelling for its attribute by one area and leaves the other attributes' numbers alone |
| RenderWorldLoad.LinkedAreas | neo/renderer/RenderWorld_load.cpp:459-481 | linking gives one portal list per area |
| RenderWorldLoad.LinkedDoublePortals | neo/renderer/RenderWorld_load.cpp:469-481 | linking gives one double portal per record |
| RenderWorldLoad.LinkedAreasExact | neo/renderer/RenderWorld_load.cpp:459-481 | area a's list holds exactly one portal per end of a record at a: into a2 when a is a1, into a1 when a is a2 |
| RenderWorldLoad.LinkedWellLinked | neo/renderer/RenderWorld_load.cpp:459-481 | linking yields paired portal lists whose portals match the ends of their double portals |
| RenderWorldLoad.LinkInterAreaPortals | neo/renderer/RenderWorld_load.cpp:409-482 | fresh, cleared area lists and double portals with the counter at zero, then every record linked in order, leaving the portal graph well linked |
| RenderWorldLoad.ParseInterAreaPortals | neo/renderer/RenderWorld_load.cpp:394-485 | a negative area count is an error that changes nothing, a negative portal count is an error after the areas are set up, running out of records is an error, and otherwise the portal records are linked into well-linked area lists and double portals |
| RenderWorldLoad.ReadBinaryAreaPortals | neo/renderer/RenderWorld_load.cpp:492-548 | the binary reader links the same records into the same area lists and double portals, with the counter at zero |
| RenderWorldLoad.SingleAreaTree | neo/renderer/RenderWorld_load.cpp:670-673 | the single-node tree of a cleared world is well formed, its leaves are all area 0 and its common area is 0 |
| RenderWorldLoad.ClearWorld | neo/renderer/RenderWorld_load.cpp:660-674 | a cleared world has one area with no portals and one node over it, and its connectivity numbers are exact |
| RenderWorldPortals.Mask | neo/renderer/RenderCommon.h:821-827 | attribute t's blocking bit is PS_BLOCK_VIEW, PS_BLOCK_LOCATION or PS_BLOCK_AIR, a single nonzero bit inside PS_BLOCK_ALL |
| RenderWorldPortals.ReachableStep | neo/renderer/RenderCommon.h:854-855 | an area reachable from another stays reachable one open portal further |
| RenderWorldPortals.ClosedHoldsReachable | neo/renderer/RenderCommon.h:854-855 | a set of areas closed under open portals holds everything reachable from its members |
| RenderWorldPortals.ReachableTrans | neo/renderer/RenderCommon.h:854-855 | reachability through open portals is transitive |
| RenderWorldPortals.ReachableSym | neo/renderer/RenderCommon.h:854-855 | when every portal has its partner leading back, reachability is symmetric |
| RenderWorldPortals.AttrBits | neo/renderer/RenderWorld_portals.cpp:1001-1006 | one flag per portal attribute |
| RenderWorldPortals.AttrBitsFlip | neo/renderer/RenderWorld_portals.cpp:1002 | attribute t is flagged for old ^ new exactly when the two blocking values differ in whether they let attribute t through |
| RenderWorldPortals.FloodExtendsLabelling | neo/renderer/RenderWorld_portals.cpp:933-938 | flooding area i with a number above all earlier ones, marking exactly the areas reachable from it, extends a correct labelling of the first i areas to the first i + 1 |
| RenderWorldPortals.LabelledAll | neo/renderer/RenderCommon.h:854-855 | a labelling correct for every area gives two areas the same number exactly when they are connected |
| RenderWorldPortals.PortalEndsKept | neo/renderer/RenderWorld_portals.cpp:985-1000 | changing only a double portal's blocking bits keeps every portal's link to its double portal |
| RenderWorldPortals.SameOpenSameReach | neo/renderer/RenderWorld_portals.cpp:996-1006 | when the change does not alter whether a door lets an attribute through, reachability for that attribute is unchanged, which is why unchanged attributes need no flood |
| RenderWorldPortals.DoorChangeRelabels | neo/renderer/RenderWorld_portals.cpp:996-1006 | re-flooding from one side of the changed door with a new number keeps the labelling exact for that attribute |
| RenderWorldPortals.OutsideFloodSameReach | neo/renderer/RenderWorld_portals.cpp:996-1006 | for two areas the new flood does not reach, the door change leaves their connection unchanged |
| RenderWorldPortals.OutsideFloodKeptPath | neo/renderer/RenderWorld_portals.cpp:996-1006 | a connection between two areas outside the new flood survives the door change |
| RenderWorldPortals.OutsideFloodNoNewPath | neo/renderer/RenderWorld_portals.cpp:996-1006 | the door change creates no connection from an area outside the new flood |
| RenderWorldPortals.DoorChangeKeepsExact | neo/renderer/RenderWorld_portals.cpp:996-1006 | after a door change that re-floods every changed attribute from the far side of the door, the connectivity numbers are exact for every attribute again |
| RenderWorldPortals.ChangedBefore | neo/renderer/RenderWorld_portals.cpp:1001-1006 | the counter grows by at most one per attribute and not at all when no attribute changed |
| RenderWorldPortals.PortalAreas.FloodConnectedAreas | neo/renderer/RenderWorld_portals.cpp:937-948 | the area gets the current number; only that attribute's numbers change, to the current number; every area carrying it is reachable from the flood's root, and every newly marked area has all its open neighbours marked |
| RenderWorldPortals.PortalAreas.GetPortalState | neo/renderer/RenderWorld_portals.cpp:1014-1024 | handle 0 reads as PS_BLOCK_NONE, a handle outside 1..numInterAreaPortals is an error, and after a set the handle reads back the stored bits |
| RenderWorldPortals.PortalAreas.SetPortalState | neo/renderer/RenderWorld_portals.cpp:985-1007 | a bad handle is an error and handle 0 changes nothing; otherwise only that door's bits change and it reads back the new bits, the counter grows by one per attribute the change flips and the flood from the door's second side renumbers exactly the areas it reaches for those attributes (DoorChanged); the portal graph stays well linked and exact connectivity numbers stay exact |
| RenderWorldPortals.PortalAreas.SetDoublePortalState | neo/renderer/RenderWorld_portals.cpp:993-1006 | on a valid door the outcome is DoorChanged for the flipped attributes, and well-linked portal lists and exact connectivity numbers are kept |
| RenderWorldPortals.PortalAreas.ChangeDoublePortal | neo/renderer/RenderWorld_portals.cpp:995-1006 | only the chosen door's blocking bits change; the counter grows by one per changed attribute and each changed attribute is re-flooded from the door's second side |
| RenderWorldPortals.PortalAreas.ChangeDoor | neo/renderer/RenderWorld_portals.cpp:993-1006 | the door change with its outcome summed up as DoorChanged: only that door changes, the counter and the re-flooded columns as ChangeDoublePortal states |
| RenderWorldPortals.SameBitsChangeNothingAtAll | neo/renderer/RenderWorld_portals.cpp:993-996 | storing the bits a door already has changes no door, no connectivity number and not the counter |
| RenderWorldPortals.PortalAreas.FloodChangedAttributes | neo/renderer/RenderWorld_portals.cpp:1001-1006 | for each changed attribute the counter is bumped and the flood from the start area relabels exactly what it reaches |
| RenderWorldPortals.PortalAreas.FloodIsExact | neo/renderer/RenderWorld_portals.cpp:937-948 | a finished flood marks every area reachable from its start for that attribute |
| RenderWorldPortals.PortalAreas.AreasAreConnected | neo/renderer/RenderWorld_portals.cpp:955-976 | area -1 is never connected, out-of-range areas and connections other than 1, 2 and 4 are errors, and otherwise the answer compares the two areas' numbers, which with exact numbers is reachability through portals open for that attribute |
| RenderWorldPortals.PortalAreas.BuildConnectedAreasFrom | neo/renderer/RenderWorld_portals.cpp:625-639 | the area gets marked, marks are never cleared, every mark is view-reachable from the root, and every newly marked area has its view-open neighbours marked |
| RenderWorldPortals.PortalAreas.BuildConnectedAreas | neo/renderer/RenderWorld_portals.cpp:648-662 | without a view area every area is connected; otherwise an area is marked exactly when it is reachable through view-open portals from the view area |
| RenderWorldPortals.PortalAreas.FloodViewThroughArea | neo/renderer/RenderWorld_portals.cpp:470-584 | the area is entered first and every area entered is view-reachable from the start |
| RenderWorldPortals.PortalAreas.FlowViewThroughPortals | neo/renderer/RenderWorld_portals.cpp:595-618 | outside the map every area is added in order; otherwise the view area is added first and every added area is view-reachable from it |
| RenderWorldPortals.AreaRangeCheckAdmitsCountAsWritten | neo/renderer/RenderWorld_portals.cpp:960 | the range test as written lets an area number equal to the area count through |
| RenderWorldPortals.AreaRangeCheckExact | neo/renderer/RenderWorld_portals.cpp:960 | the corrected test admits exactly the numbers 0..count-1 and admits nothing the written test rejects |
| RenderWorldPortals.ConnectionIndex | neo/renderer/RenderWorld_portals.cpp:964-971 | the shift loop gives an attribute index below NUM_PORTAL_ATTRIBUTES whose mask is the connection for connections 1, 2 and 4 |
| RenderWorldPortals.ConnectionAttribute | neo/renderer/RenderWorld_portals.cpp:964-973 | the connection is accepted exactly when it is 1, 2 or 4, and then yields the attribute whose bit it is |
| RenderWorldPortals.OnStack | neo/renderer/RenderWorld_portals.cpp:495-505 | the stack walk finds the portal exactly when it is on the stack |
| RenderWorldPortals.PortalPlaneCount | neo/renderer/RenderWorld_portals.cpp:551-581 | the new stack gets one plane per non-degenerate edge among the first min(numPoints, MAX_PORTAL_PLANES) plus the portal plane |
| RenderWorldPortals.SetDefViewValid | neo/renderer/RenderWorld_portals.cpp:82-134 | marking a def for this view keeps the cache valid, returns a record of that def, and appends one record only the first time in a view |
| RenderWorldPortals.SetDefViewIdempotent | neo/renderer/RenderWorld_portals.cpp:82-134 | a second request in the same view returns the same record and changes nothing |
| RenderWorldPortals.CacheRecordsDistinct | neo/renderer/RenderWorld_portals.cpp:82-134 | a def never has two records in one view |
| RenderWorldPortals.ViewDefs.StartView | neo/renderer/RenderWorld_portals.cpp:678-688 | bumping the view count empties both record lists and leaves no def cached for the new view |
| RenderWorldPortals.ViewDefs.SetLightDefViewLight | neo/renderer/RenderWorld_portals.cpp:82-104 | the light's record for this view is created once and returned on every later call, and entities are untouched |
| RenderWorldPortals.ViewDefs.SetEntityDefViewEntity | neo/renderer/RenderWorld_portals.cpp:114-134 | the entity's record for this view is created once and returned on every later call, and lights are untouched |

## Left out

- GPU and operating-system calls are not modelled. This covers Vulkan and OpenGL driver calls, window creation, file I/O, timers and threads. What they report is a method parameter; what they are asked to do is recorded as a returned command or action.
- Floating point is not modelled: camera placement, culling planes, screen rectangles, colours, gamma and texture-coordinate centring. Values the renderer derives from floats arrive as inputs, or as booleans for the tests made on them.
- Concurrency is not modelled. The SMP front end and back end are taken as alternating, one frame at a time.
- Fatal errors (`idLib::Error`, `FatalError`) are modelled as error results that leave the state as the source has left it when the error is raised. Usually that is unchanged. The exception is RenderSystem.FrameData.FrameAlloc: the source adds to `frameMemoryAllocated` before it tests the end against MAX_FRAME_MEMORY (neo/renderer/RenderSystem.cpp:842-846), so the error result keeps the bumped counter. Execution after such an error is not modelled. This covers:
  - program link and parse failures;
  - an empty display-mode list;
  - no suitable GPU or queue family;
  - no depth format;
  - bad portal, area and crop numbers.
- The engine's `int` is modelled as an unbounded integer wherever a model member does not mention 32-bit wrap-around. Where the source narrows a value, the model does too (Common's conversions, MegabytesToBytes).
- FrontendMain.OptimizeViewLightsList: the `r_useShadowSurfaceScissor` branch (neo/renderer/tr_frontend_main.cpp:199-229) is not modelled. It works on idScreenRect, and idScreenRect is not part of this model.
- FrontendMain.SortByArea: qsort is modelled as an insertion sort. The contract promises a permutation in ascending order. The order among equal areas, which qsort leaves unspecified, is not promised.
- FrontendMain.SortDrawSurfs: the comment in the source calls the depth order "smallest first". The model follows the code, which sorts larger depth first.
- AllocatorVK: a block's doubly linked chunk list is a sequence in list order. Pointer aliasing between chunks is not modelled.
- AllocatorVK.VulkanAllocator.EmptyGarbage: the source deletes a block as soon as its allocated total reaches 0 (neo/renderer/Vulkan/Allocator_VK.cpp:585-591). While another allocation of that block is still live, its padding plus size keeps the total above 0 (:364, :426), so the block is deleted only after its last entry in the slot. The source touches a deleted block only when a later entry of the slot names a block that has already emptied. That takes either one allocation freed twice, or a zero-size allocation with zero padding, which Allocate accepts (:282-333). The model keeps the block object alive, so that use-after-delete is not modelled.
- AllocatorVK.VulkanAllocator.Free requires the allocation's block to be valid and of a known memory type. The source frees whatever allocation it is handed.
- AllocatorVK.VulkanBlock.Init: the source compares a 32-bit memory-type index with UINT64_MAX, so that test can never succeed. The model's unbounded index can equal the sentinel.
- NUM_FRAME_DATA is defined outside the modelled files. It is taken as 2, and the proofs use only that it is positive.
- GLState.h is not part of this model. The bit positions of the GLS_ fields are one concrete disjoint layout that agrees with every use the renderer makes of them.
- ImageLoad.Image.StorageSize: the product is computed on unbounded integers. The source's 32-bit `int` overflows for very large images.
- ImageLoad.Image.UploadScratchImage: purging, allocating and uploading the image are reported as one returned ScratchUpload action rather than performed. In the Vulkan build SetSamplerState has an empty body (neo/renderer/Vulkan/Image_VK.cpp:406-408), so the upload paths change no sampler state.
- ImageLoad.GeneratedName: Str.cpp is not part of this model. The idStr extension helpers are taken as:
  - ExtractFileExtension: the text after the last '.';
  - StripFileExtension: cut at the last '.';
  - SetFileExtension: strip, then append '.' and the extension.
  Under that reading a stem that already holds a '.' loses part of its name (GeneratedNameDoubleDot). Because Str.cpp is unseen, this is noted here and not claimed as a finding.
- RenderSystem: message text, font names and `idStrStatic<MAX_OSPATH>` buffers are unbounded strings. Truncation at the buffer size is not modelled.
- RenderSystem.RenderSystemLocal.CropRenderSize, RenderSystem.RenderSystemLocal.UnCrop and RenderSystem.RenderSystemLocal.FinishCommandBuffers: the EmitFullscreenGui flush that closes pending GUI drawing first (neo/renderer/RenderSystem.cpp:1518, 1551, 1390) is not modelled. The GUI model's draw list is not part of the render-system state here, so the contracts say nothing about the draw-view command that flush may add.
- RenderSystem.FindFont: the font-name comparison is an ASCII case-insensitive comparison. Locale-dependent case folding is not modelled.
- RenderBackend.GetModeListForDisplay: EnumDisplayDevices and EnumDisplaySettings are abstracted as a given list of displays, each with its modes.
- RenderBackendVK.ChooseSupportedFormat: the device's format properties are one boolean per listed format.
- RenderProgsGL.ParseInOutStruct: at the end of the input the source keeps looping forever, but the model stops. The same holds for RenderProgsGL.MembersWith.
- RenderProgsGL: the gl_FragCoord entry appended for PS_IN structs (neo/renderer/OpenGL/RenderProgs_GL.cpp:435-439) leaves `declareInOut` uninitialised in the source. The model sets it to false.
- RenderProgsGL.GLProgManager.CommitCurrent: the uniform values are real numbers that are copied as they are. The glUniform4fv upload is a recorded command.
- RenderProgsVK: command-buffer recording, descriptor-set writes and Shutdown are not modelled. Of the Vulkan CommitCurrent, only the parameter-block allocation (RenderProgsVK.AllocParmBlockBuffer) and the pipeline choice are modelled.
- ImageLoad.MakePowerOfTwo requires `num <= 0x4000_0000`. Above that, the source's `pot <<= 1` on a 32-bit `int` overflows (neo/renderer/Image_load.cpp:368-373), and the model does not cover that undefined behaviour.
- RenderDebugGL.ShowEdges requires a whole number of triangles (`|indexes| % 3 == 0`). A surface's index list always holds whole triangles.
- RenderWorldIslands.LabelIslands requires a whole number of triangles and every index below the vertex count. The map loader checks both before labelling.
- RenderWorld: the bodies of the area searches behind CreateEntityRefs and CreateLightRefs use bounds and frustum planes. They are taken as a given list of areas.
- RenderWorld: R_ClearEntityDefDynamicModel and R_FreeEntityDefDerivedData are modelled only as clearing the dynamic model and the derived references. `localReferenceBounds` is set for the area-model entities at map load (neo/renderer/RenderWorld_load.cpp:983, in AddWorldModelEntities) and by dynamic-model code outside the modelled files; the model takes it as an input.
- RenderWorld.World.UpdateEntityDef: the immediate R_IssueEntityDefCallback when entity callbacks are off (neo/renderer/RenderWorld.cpp:353-356) is not modelled. It calls into game code, which may rewrite the entity's parameters; the contract describes the entity as stored before that callback.
- RenderWorld.World.ResizeInteractionTable: the table size (entity count + 100) × (light count + 100) is unbounded, so the source's 32-bit overflow of that product is not modelled.
- RenderWorldLoad.CommonChildrenArea and the BSP walks require a well-formed tree: children numbered after their parent, and leaves as negative area numbers. The source trusts the map file for this.
- RenderWorldLoad.ParseInterAreaPortals requires every portal record's two areas to be below the area count. The source indexes its area array with whatever the file says (neo/renderer/RenderWorld_load.cpp:458-475). The model does not cover a corrupt map.
- RenderWorldLoad.ReadBinaryAreaPortals requires the record count and the record areas to be in range, for the same reason (neo/renderer/RenderWorld_load.cpp:530-548).
- RenderWorldLoad.ClearWorld requires that no double portals remain. In the source FreeWorld has already run.

## Findings

| source | as written | input that shows it | evidently intended | confidence | as-written member | corrected member |
|---|---|---|---|---|---|---|
| neo/renderer/RenderSystem.cpp:1524-1528 | CropRenderSize increments m_currentRenderCrop without checking it against MAX_RENDER_CROPS | eight nested crops starting from the full-screen crop write m_renderCrops[8], one past the end | a full crop stack is refused | not executed | RenderSystem.CropOverrunsAsWritten | RenderSystem.RenderSystemLocal.CropRenderSize |
| neo/renderer/RenderWorld_portals.cpp:959 | the range test uses `areaNum > m_numPortalAreas` | areaNum1 equal to the area count passes the test and then indexes m_portalAreas one past its end | areas must lie in 0 .. count-1 | not executed | RenderWorldPortals.AreaRangeCheckAdmitsCountAsWritten | RenderWorldPortals.AreaRangeCheckExact |
| neo/renderer/tr_frontend_subview.cpp:402 | the x-ray view copies the parent's isMirror and then XORs it with the parent's flag again | an x-ray stage seen from a mirrored view gets isMirror false although its camera is the mirrored one | the x-ray view keeps the parent's culling order | not executed | FrontendSubview.XrayInMirrorAsWritten | FrontendSubview.SubviewMirroring |
| neo/renderer/GuiModel.cpp:282 | the index-space check ignores the rounding of the first index up to a multiple of 8 when a new surface starts | one surface holding 119999 indexes, then one index of another material: the bound test passes, the surface starts at 120000 and the index lands past MAX_INDEXES | the bound test uses the rounded start | not executed | GuiModel.AllocTrisOverrunsAsWritten | GuiModel.GuiModel.AllocTris |
| neo/renderer/Vulkan/Image_VK.cpp:55 | FMT_XRGB8 becomes VK_FORMAT_R8G8B8_UNORM | any XRGB8 image: 24-bit Vulkan texels are read from 32-bit staged texels | a 32-bit format that matches the staged data | not executed | ImageVK.XRGB8StagingMismatch | ImageVK.FormatBitsAgree |
| neo/renderer/OpenGL/RenderProgs_GL.cpp:1146-1148 | the heat-haze test compares the program name, which has its extension stripped, with names ending in ".vfp" | the heatHaze program is never marked as using joints | heat-haze programs use optional skinning | not executed | RenderProgsGL.HeatHazeMissed | RenderProgsGL.LinkedProg |
| neo/renderer/RenderBackend.cpp:1030-1037 | r_vidMode is reset only when it is greater than the mode count | r_vidMode equal to the mode count indexes modeList one past its end | reset unless it indexes the list | not executed | RenderBackend.VidModeAsWrittenOverruns | RenderBackend.VidModeChecked |
| neo/renderer/Vulkan/RenderBackend_VK.cpp:865 | the depth-format list has two entries but is passed with count 3 | a device that supports neither depth format makes the scan read a third entry past the array | the count is the list's length | not executed | RenderBackendVK.DepthFormatScanOverruns | RenderBackendVK.ChooseSupportedFormat |
| neo/renderer/RenderDebug.cpp:426-446 | the loop runs only while lastNumber < 99999, so its `== 99999` branch is dead | lastNumber 99998 leaves the loop without writing a name; with 99997 and shot 99998 present, that existing file is chosen | the 99999 name is written as the last resort and no existing file is picked below it | not executed | RenderDebug.ScreenshotOverwritesAsWritten | RenderDebug.ScreenshotFilename |
| neo/renderer/OpenGL/RenderDebug_GL.cpp:383 | red is 2*(128-j), stored into a byte | intensity 0 stores 256, which becomes 0, so black instead of full red | full red at intensity 0 | not executed | RenderDebugGL.IntensityZeroLosesRed | RenderDebugGL.IntensityColor |
| neo/renderer/OpenGL/RenderDebug_GL.cpp:314 | FrameAlloc is asked for numDrawSurfs + interactions * sizeof(pointer) bytes | one surface and no interactions: 1 byte for an 8-byte pointer | (numDrawSurfs + interactions) pointers | not executed | RenderDebugGL.OverdrawAllocShort | RenderDebugGL.OverdrawAlloc |
| neo/renderer/Vulkan/Allocator_VK.cpp:364-426 | Allocate adds padding + size to m_allocated, but Free subtracts only size | in a 1024-byte block, allocate 16 bytes, then 16 bytes at alignment 64, then free both: m_allocated stays 48 and the block is never released | the allocated total returns to the sum of live sizes | not executed | AllocatorVK.PaddingLeaksAsWritten | AllocatorVK.CorrectedAllocatePreservesValid |
| neo/idlib/Lib.cpp:693-705 | after each element, p advances by elsize >> 1, which is one short for odd sizes of 3 or more | two 3-byte elements [1..6] become [3,2,5,4,1,6] instead of [3,2,1,6,5,4] | each element's bytes are reversed in place | not executed | Lib.RevBytesSwapOddSizeMisaligned | Lib.RevBytesPerElementAt |
| neo/idlib/Lib.cpp:729-736 | the bit loop shifts v before it reads bit 0 | the byte 0x01 becomes 0x00 instead of 0x80 | each byte's bits are reversed | not executed | Lib.BitFieldByteDropsBitZero | Lib.Rev8Involution |
| neo/renderer/OpenGL/RenderBackend_GL.cpp:2021 | a unit is accepted up to the driver's GL_MAX_TEXTURE_IMAGE_UNITS | a driver reporting 16 units lets unit 8 through, and the next bind indexes the 8-entry texture cache past its end | units are bounded by MAX_MULTITEXTURE_UNITS too | not executed | RenderBackendGL.SelectTextureOverrunsAsWritten | RenderBackendGL.GLBackend.GL_SelectTexture |
