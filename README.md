# Sub-image tiling and stitching, modelled in Dafny

This project models the tile/stitch engine of the image-dataset-conversion library's
image-augmentation plug-ins. It also models the filters and the command-line tool built on
that engine:

- **Regions.** Region definitions `"x,y,w,h"` are parsed into rectangles. They may be sorted by
  a `"%06d %06d"` key, x then y or y then x. Each one is paired with its inclusive corner tuple.
- **Extraction** (`process_image`). A record is cut into one sub-record per region:
  - the image is cropped, with the region's far corner clamped to the image, then padded on request;
  - the sub-record is renamed through a suffix template with placeholders;
  - the annotation is cut to the region: a classification label is copied, located objects are
    fitted into the region, segmentation layers are sliced;
  - empty tiles may be suppressed.
- **Reassembly** (`new_from_template`, `transfer_region`, `prune_annotations`). Tiles go back into
  a full-size record:
  - pixels are pasted;
  - classification labels are gathered into a comma-separated list;
  - objects are moved back, and refitted where they reach the right or bottom edge;
  - segmentation layers are written into the full layers;
  - the empty annotation state is pruned at the end.
- **Merging** (`merge_polygons`). Objects of the same label whose edges are parallel and close are
  grouped into merge sets. Each set becomes the union of its polygons, with the shared label and
  the mean score.
- **Filters**:
  - `meta-sub-images`: tile, run a base filter on each tile, stitch back;
  - `sub-images`: fixed or generated regions;
  - `crop-to-label`;
  - `roi-images`;
  - `clip-grayscale`.
  Each filter has its `initialize` defaults and error cases, and its per-batch `_do_process`.
- **`idc-combine-sub-images`.** Files are grouped by a key from their names. Each file's offset
  comes from its name. Each group is stitched into one record, with polygons merged on request.

Where the source raises an exception, the model returns `None`. This covers a batch or tool run
that stops part-way.

Library calls whose code is not part of this model are parameters of the operations that use them:

- **Shapes**: the geometry library (intersection, union, convex hull, segment distance) and the
  overlap ratio of two rectangles;
- **ExtractRegions**: `extract_regions`;
- **GenerateRegions**: `generate_regions` together with `regions_to_string`;
- **GetAbsolute**: `get_absolute`;
- the `locatedobject_to_xyxy` function;
- the base filter;
- **Search**: `re.search(...).group(1)`;
- **ReadImages**: the reader;
- `float()` of a text.

Filters whose options are updated in place are classes:

- `MetaSubImages`, `SubImages`, `CropToLabel`, `RegionOfInterestImages` and `ClipGrayscale`;
- `Reassembly.Canvas`, the full-size record that `transfer_region` and `prune_annotations`
  update in place.

Every loop of the source is a method. Each is proved equal to a specification function, and the
properties are proved about those functions. Two loops are proved equal to corrected functions
instead: `Reassembly.PlaceObjects` to `Reassembly.Relocated`, and `Merging.BuildMergeSets` to
`Merging.MergeSets`. The as-written behaviour of both is modelled beside them (see Findings).

Files:

- `wrappers.dfy`: Option and batch maps.
- `text.dfy`: Python string handling.
- `geometry.dfy`: rectangles.
- `grids.dfy`: PIL and numpy pixel arrays.
- `records.dfy`: records and annotations.
- `regions.dfy`, `extraction.dfy`, `reassembly.dfy`, `merging.dfy`: the engine.
- `meta_sub_images.dfy`, `sub_images.dfy`, `crop_to_label.dfy`, `roi_images.dfy`,
  `clip_grayscale.dfy`: the filters.
- `combine.dfy`: the tool.

## Model

| member | source | states |
|---|---|---|
| Geometry.ToXYXY | src/idc/imgaug/filter/_sub_images_utils.py:87-88 | the corner tuple starts at (x, y) and spans exactly width by height pixels, far corner inclusive |
| Geometry.Corners | src/idc/imgaug/filter/_sub_images_utils.py:127-141 | the rectangle's ring: five points, closed at the top-left corner, every point on the inclusive edges |
| Geometry.Intersection | src/idc/imgaug/filter/_sub_images_utils.py:208-211 | the bounds exist exactly when the two closed rectangles share a point, and enclose exactly the shared points |
| Geometry.TranslateInverse | src/idc/imgaug/filter/_sub_images_utils.py:244-247 | moving a ring into region coordinates and back restores it |
| Geometry.OverlappingLinesMeaning | src/idc/imgaug/filter/_sub_images_utils.py:605-631 | for spans given start first, `overlapping_lines` holds exactly when the closed spans share a coordinate |
| Geometry.OverlappingLinesSymmetric | src/idc/imgaug/filter/_sub_images_utils.py:605-631 | the test does not depend on the order of the two lines |
| Grids.Slice | src/idc/imgaug/filter/_sub_images_utils.py:274 | numpy slicing: bounds clamped, negative ones counted from the end, cells taken from the clamped start |
| Grids.AssignSlice | src/idc/imgaug/filter/_sub_images_utils.py:563 | a slice assignment succeeds exactly when the source broadcasts onto the clamped slice, and keeps the target's shape |
| Grids.AssignSliceCells | src/idc/imgaug/filter/_sub_images_utils.py:563 | with matching shapes the slice holds the source and every other cell is unchanged |
| Grids.AssignSliceClamped | src/idc/imgaug/filter/_sub_images_utils.py:563 | a slice past the bottom or right edge is clamped; a source of the clamped shape fills exactly the part inside, every other cell unchanged |
| Grids.CropLayerSize | src/idc/imgaug/filter/_sub_images_utils.py:562 | cropping a layer to a size within its own keeps exactly that many rows and columns |
| Grids.AssignCroppedClamped | src/idc/imgaug/filter/_sub_images_utils.py:562-563 | a layer cropped to the clamped part of a slice and assigned there fills exactly that part with its own cells |
| Grids.PilCrop | src/idc/imgaug/filter/_sub_images_utils.py:406 | PIL crop: fails only for an inverted box; the result has the box's size and reads 0 outside the image |
| Grids.Paste | src/idc/imgaug/filter/_sub_images_utils.py:510 | PIL paste: the target keeps its size, cells under the pasted image take its values, all others stay |
| Grids.TargetSize | src/idc/imgaug/filter/_sub_images_utils.py:307-314 | a missing target dimension is the current one; a change is needed exactly when a given dimension differs |
| Grids.PadImage | src/idc/imgaug/filter/_sub_images_utils.py:286-324 | no target means no change; otherwise the target size with the image at the top-left and 0 elsewhere; fails exactly for a negative target that differs |
| Grids.PadLayer | src/idc/imgaug/filter/_sub_images_utils.py:320-322 | no target means no change; a padded layer has the target size |
| Grids.CropImage | src/idc/imgaug/filter/_sub_images_utils.py:327-363 | no target means no change; a cropped image has the target size and the original's cells from the top-left |
| Grids.CropLayer | src/idc/imgaug/filter/_sub_images_utils.py:360-361 | no target means no change; every kept cell is the original's cell at the same position |
| Grids.PadLayerGrows | src/idc/imgaug/filter/_sub_images_utils.py:320-322 | padding a layer to at least its size succeeds and only adds zeros to the right and bottom |
| Grids.CropPadImage | src/idc/imgaug/filter/_sub_images_utils.py:286-363 | cropping an image padded to at least its size back to that size gives the original image |
| Grids.CropPadLayer | src/idc/imgaug/filter/_sub_images_utils.py:286-363 | cropping a padded layer back to its size gives the original layer |
| Records.Label | src/idc/imgaug/filter/_sub_images_utils.py:682 | an object's label is present exactly when its metadata holds the label key, and is that value |
| Records.Outline | src/idc/imgaug/filter/_sub_images_utils.py:663-668 | an object's outline is its polygon, or else the four inclusive corners of its rectangle |
| Records.Ring | src/idc/imgaug/filter/_sub_images_utils.py:144-159 | the shapely ring of an object: its polygon closed by its first point, or the rectangle's corner ring |
| Records.FirstPoly | src/idc/imgaug/filter/_sub_images_utils.py:232-241 | a collection yields the ring of a polygon part with no polygon before it, and nothing exactly when no part is a polygon |
| Regions.ParseFields | src/idc/imgaug/filter/_sub_images_utils.py:68 | the integer fields, one per text field; fails exactly when a field is not an integer |
| Regions.ParseToken | src/idc/imgaug/filter/_sub_images_utils.py:67-71 | a token fails exactly when a field is not an integer, and gives a region exactly when it has four integer fields, which are x, y, w, h |
| Regions.UnsortedFails | src/idc/imgaug/filter/_sub_images_utils.py:67-71 | parsing the region list fails exactly when one token has a field that is not an integer |
| Regions.ParseFormatted | src/idc/imgaug/filter/_sub_images_utils.py:67-71 | a rectangle rendered as "x,y,w,h" parses back to itself |
| Regions.UnsortedFormatted | src/idc/imgaug/filter/_sub_images_utils.py:67-71 | rendered rectangles parse back to the same rectangles in the same order |
| Regions.SortByKeySpec | src/idc/imgaug/filter/_sub_images_utils.py:84 | the sort's result is ordered by key and is a permutation of its input |
| Regions.KeyOrder | src/idc/imgaug/filter/_sub_images_utils.py:76-81 | for coordinates of at most six digits the `"%06d %06d"` key orders by x then y (or y then x) |
| Regions.SortRegions | src/idc/imgaug/filter/_sub_images_utils.py:75-84 | fails exactly for an unknown sorting; sorting "none" keeps the order |
| Regions.SortRegionsSpec | src/idc/imgaug/filter/_sub_images_utils.py:75-84 | sorting keeps the regions as a multiset and, for six-digit coordinates, orders them by x then y or by y then x |
| Regions.RegionsOf | src/idc/imgaug/filter/_sub_images_utils.py:52-91 | each parsed region is paired with its own inclusive corner tuple |
| Regions.ParseRegions | src/idc/imgaug/filter/_sub_images_utils.py:52-91 | fails exactly on a bad field or unknown sorting; otherwise the four-field tokens in token order, sorted as requested, with matching corner tuples |
| Regions.CornerTuples | src/idc/imgaug/filter/_sub_images_utils.py:87-88 | one inclusive corner tuple per region, in order |
| Regions.RegionFilename | src/idc/imgaug/filter/_sub_images_utils.py:94-124 | the new name starts with the path's stem and ends with its extension |
| Regions.RegionFilenamePlain | src/idc/imgaug/filter/_sub_images_utils.py:111-124 | a suffix without placeholders is put between stem and extension as it is |
| Regions.RegionFilenameDefault | src/idc/imgaug/filter/_sub_images_utils.py:111-115 | with `-{INDEX}` the name is stem, '-', the index in exactly as many digits as the region count has, extension |
| Regions.RegionFilenameCorner | src/idc/imgaug/filter/_sub_images_utils.py:115-120 | `{X0}` becomes the region's left corner and is not disturbed by the later `{X}` replacement |
| Extraction.PolygonOf | src/idc/imgaug/filter/_sub_images_utils.py:232-243 | a polygon result is taken as is; a result that is neither polygon nor collection gives no polygon |
| Extraction.FittedMeta | src/idc/imgaug/filter/_sub_images_utils.py:212-215 | a fitted object keeps its metadata and, for an index above -1, gains `region_index` and `region_xywh` |
| Extraction.FitLocatedObject | src/idc/imgaug/filter/_sub_images_utils.py:193-256 | fails exactly when object and region do not meet; the new rectangle, in region coordinates, covers exactly their common pixels |
| Extraction.FitInside | src/idc/imgaug/filter/_sub_images_utils.py:208-212 | an object inside the region is only moved into region coordinates |
| Extraction.SelectObjectsSpec | src/idc/imgaug/filter/_sub_images_utils.py:421-427 | the tile's objects are the fits of the kept objects, one each, in annotation order |
| Extraction.Kept | src/idc/imgaug/filter/_sub_images_utils.py:424-426 | an object is kept exactly when it overlaps fully, or partly with partial objects allowed |
| Extraction.SelectObjectsLoop | src/idc/imgaug/filter/_sub_images_utils.py:422-427 | the object loop computes the selection |
| Extraction.CropLayersFrom | src/idc/imgaug/filter/_sub_images_utils.py:259-283 | every layer of a tile is the region's slice of the layer with the same label |
| Extraction.CropLayersNotBlank | src/idc/imgaug/filter/_sub_images_utils.py:276-282 | with suppression no all-background layer is kept |
| Extraction.CropLayersAll | src/idc/imgaug/filter/_sub_images_utils.py:272-283 | without suppression every layer is kept and sliced, in order |
| Extraction.CropLayersKeepsNonBlank | src/idc/imgaug/filter/_sub_images_utils.py:276-282 | with suppression every layer whose slice is not blank is kept |
| Extraction.FitLayers | src/idc/imgaug/filter/_sub_images_utils.py:259-283 | the labels are copied and the layers are the sliced, filtered ones |
| Extraction.PadLayers | src/idc/imgaug/filter/_sub_images_utils.py:437-438 | every layer is padded under its own label, in order |
| Extraction.ClampedCorners | src/idc/imgaug/filter/_sub_images_utils.py:401-405 | the far corner is clamped to the image's last column and row, the near corner kept |
| Extraction.RegionImage | src/idc/imgaug/filter/_sub_images_utils.py:401-408 | the tile image is a well-formed pixel array |
| Extraction.RegionImagePixels | src/idc/imgaug/filter/_sub_images_utils.py:401-408 | the original size is that of the clamped rectangle, and the tile holds the image's pixels from its corner |
| Extraction.RegionImageUnpadded | src/idc/imgaug/filter/_sub_images_utils.py:406-408 | without padding, a crop fails only for an inverted rectangle, and the tile has the crop's size |
| Extraction.CropTile | src/idc/imgaug/filter/_sub_images_utils.py:401-411 | a tile carries its region, the suffixed name, and the record's format, mode, metadata and annotation |
| Extraction.ProcessRegion | src/idc/imgaug/filter/_sub_images_utils.py:397-446 | the loop body computes the region's step |
| Extraction.CropRegion | src/idc/imgaug/filter/_sub_images_utils.py:401-411 | the crop, pad and rename statements compute the tile |
| Extraction.Annotate | src/idc/imgaug/filter/_sub_images_utils.py:414-446 | the branch by kind computes the tile's annotation or the stop |
| Extraction.ProcessObjects | src/idc/imgaug/filter/_sub_images_utils.py:421-431 | the detection branch computes its step |
| Extraction.ProcessLayers | src/idc/imgaug/filter/_sub_images_utils.py:432-443 | the segmentation branch computes its step |
| Extraction.ProcessImage | src/idc/imgaug/filter/_sub_images_utils.py:366-448 | the loop over the regions computes the extraction |
| Extraction.ProcessNext | src/idc/imgaug/filter/_sub_images_utils.py:397-446 | one pass of the loop extends the run over the regions so far by the next region's step |
| Extraction.CollectMeaning | src/idc/imgaug/filter/_sub_images_utils.py:397-448 | tiles result exactly when no region stops or fails, and they are the emitted tiles in region order |
| Extraction.TileForEmits | src/idc/imgaug/filter/_sub_images_utils.py:401-443 | an emitted tile has its region and the suffixed name, and keeps the record's format, mode, metadata and kind; a classification keeps its label, a detection holds the selected objects; with suppression a tile has a label, an object or a layer |
| Extraction.ExtractClassification | src/idc/imgaug/filter/_sub_images_utils.py:415-420 | without suppression a classification record gives one tile per region, in order, with its label |
| Extraction.ExtractUnsupported | src/idc/imgaug/filter/_sub_images_utils.py:444-446 | a record of an unhandled kind gives no tiles once there is a region |
| Extraction.ExtractTiles | src/idc/imgaug/filter/_sub_images_utils.py:397-448 | the tiles are exactly the emitted ones in region order, at most one per region |
| Reassembly.ZeroLayers | src/idc/imgaug/filter/_sub_images_utils.py:475-480 | one all-zero layer per distinct label, every label present |
| Reassembly.NewFromTemplate | src/idc/imgaug/filter/_sub_images_utils.py:451-487 | fails exactly for an unhandled kind; keeps name, format, mode, metadata and kind; the image is blank when rebuilt |
| Reassembly.TransferImage | src/idc/imgaug/filter/_sub_images_utils.py:508-510 | without rebuilding the pixels stay; with it the cropped tile replaces the region's pixels and nothing else |
| Reassembly.AddLabel | src/idc/imgaug/filter/_sub_images_utils.py:515-522 | the first label is taken as is; a label already listed leaves the list unchanged |
| Reassembly.AddLabelJoined | src/idc/imgaug/filter/_sub_images_utils.py:519-522 | adding a label to a comma-joined list appends it exactly when it is not already there |
| Reassembly.AddLabelsDedup | src/idc/imgaug/filter/_sub_images_utils.py:515-522 | tile labels accumulate into a comma-joined list holding each label once, in order of first occurrence |
| Reassembly.Shift | src/idc/imgaug/filter/_sub_images_utils.py:529-533 | a moved object's rectangle and outline are shifted by the offset, its metadata kept |
| Reassembly.PlaceSpec | src/idc/imgaug/filter/_sub_images_utils.py:534-550 | an object is skipped exactly when it starts right of or below the image; placed objects end inside the image; ones not reaching the edge are only shifted |
| Reassembly.RelocatedSpec | src/idc/imgaug/filter/_sub_images_utils.py:528-550 | a tile's objects fail to transfer exactly when one cannot be refitted; otherwise exactly the placed objects are added, each ending inside the image |
| Reassembly.RegionRebinding | src/idc/imgaug/filter/_sub_images_utils.py:546-548 | counterexample: after a refit, the source puts the next object at x = 0, the intended placement at x = 10 |
| Reassembly.EnsureLayer | src/idc/imgaug/filter/_sub_images_utils.py:559-560 | the label's layer exists afterwards and is the existing one or a new zero layer |
| Reassembly.StitchOverwrites | src/idc/imgaug/filter/_sub_images_utils.py:553-563 | without cropping, a tile's layer inside the image overwrites exactly its region of the full layer, the rest unchanged |
| Reassembly.StitchCroppedOverwrites | src/idc/imgaug/filter/_sub_images_utils.py:553-563 | a tile's layer cropped to its region's part inside the image (clamped at the right and bottom edges) overwrites exactly that part of the full layer, the rest unchanged |
| Reassembly.StitchLayerWrites | src/idc/imgaug/filter/_sub_images_utils.py:553-563 | a tile's cropped layer succeeds exactly when it fits its slice, and the layer under its label then is that slice assignment |
| Reassembly.Transfer | src/idc/imgaug/filter/_sub_images_utils.py:490-567 | the full record keeps name, format, mode, metadata and kind; a tile without annotation leaves the annotation alone |
| Reassembly.TransferAnnotation | src/idc/imgaug/filter/_sub_images_utils.py:512-567 | the annotation keeps its kind; a tile without annotation leaves it unchanged |
| Reassembly.TransferObjects | src/idc/imgaug/filter/_sub_images_utils.py:525-550 | a tile's placed objects are appended after the existing ones, in tile order |
| Reassembly.TransferLabel | src/idc/imgaug/filter/_sub_images_utils.py:515-522 | a classification tile adds its label to the full record's labels |
| Reassembly.NonBlank | src/idc/imgaug/filter/_sub_images_utils.py:586-595 | a layer survives exactly when it is not all background |
| Reassembly.Prune | src/idc/imgaug/filter/_sub_images_utils.py:570-602 | keeps the kind; a kept segmentation has the same labels, at least one layer, and exactly the non-blank layers |
| Reassembly.PruneStable | src/idc/imgaug/filter/_sub_images_utils.py:570-602 | pruning an annotation that pruning left in place changes nothing |
| Reassembly.PruneTemplate | src/idc/imgaug/filter/_sub_images_utils.py:576-599 | a fresh template has no annotation left after pruning |
| Reassembly.PlaceObjects | src/idc/imgaug/filter/_sub_images_utils.py:528-550 | the object loop computes the relocated objects |
| Reassembly.StitchAll | src/idc/imgaug/filter/_sub_images_utils.py:554-563 | the layer loop computes the stitched layers |
| Reassembly.StitchOne | src/idc/imgaug/filter/_sub_images_utils.py:559-563 | one layer is added when missing, cropped and assigned |
| Reassembly.Canvas.TransferRegion | src/idc/imgaug/filter/_sub_images_utils.py:490-567 | succeeds exactly when the transfer does, and then the record is the transfer of the tile into the old record |
| Reassembly.Canvas.TransferAnn | src/idc/imgaug/filter/_sub_images_utils.py:512-567 | the annotation statements succeed exactly when the annotation transfer does, then leave its result, and never touch the pixels |
| Reassembly.Canvas.PruneAnnotations | src/idc/imgaug/filter/_sub_images_utils.py:570-602 | succeeds exactly when pruning does; the annotation becomes the pruned one and the pixels stay |
| Reassembly.KeepNonBlank | src/idc/imgaug/filter/_sub_images_utils.py:587-595 | the loop keeps exactly the non-blank layers |
| Merging.Edges | src/idc/imgaug/filter/_sub_images_utils.py:669-671 | one edge per outline point |
| Merging.EdgesTouch | src/idc/imgaug/filter/_sub_images_utils.py:688-712 | the edge-pair loops find a parallel close pair exactly when one exists |
| Merging.PartnersBelow | src/idc/imgaug/filter/_sub_images_utils.py:683-712 | exactly the later same-label touching objects, ascending |
| Merging.GroupsBelow | src/idc/imgaug/filter/_sub_images_utils.py:680-712 | one group per object with partners, holding all its partners |
| Merging.GroupsShareLabel | src/idc/imgaug/filter/_sub_images_utils.py:682-687 | the members of every group share one label |
| Merging.ParallelLoop | src/idc/imgaug/filter/_sub_images_utils.py:680-712 | the nested loops compute the `parallel` dictionary |
| Merging.PartnerLoop | src/idc/imgaug/filter/_sub_images_utils.py:683-712 | the inner loops for one object compute exactly its partners |
| Merging.FirstSet | src/idc/imgaug/filter/_sub_images_utils.py:722-725 | the first merge set holding a member, and none when no set holds it |
| Merging.FirstHit | src/idc/imgaug/filter/_sub_images_utils.py:720-727 | the first member already in a merge set, and the first set holding it |
| Merging.MergeSetsCover | src/idc/imgaug/filter/_sub_images_utils.py:715-732 | an object is marked for merging exactly when it lies in a merge set |
| Merging.MergeSetsShareLabel | src/idc/imgaug/filter/_sub_images_utils.py:715-732 | merge sets built from same-label groups are same-label |
| Merging.MergeSetsMissMember | src/idc/imgaug/filter/_sub_images_utils.py:720-727 | counterexample: the source leaves object 2 of the set {0, 1, 2} unmarked |
| Merging.BuildMergeSets | src/idc/imgaug/filter/_sub_images_utils.py:715-732 | the loop computes the merge sets with every member marked |
| Merging.FindHit | src/idc/imgaug/filter/_sub_images_utils.py:720-727 | the scan finds the first set holding a member of the group |
| Merging.Ascending | src/idc/imgaug/filter/_sub_images_utils.py:746 | a merge set's members, each once, in ascending order |
| Merging.Scores | src/idc/imgaug/filter/_sub_images_utils.py:749-750 | at most one score per member, none when no member has one |
| Merging.FirstLabel | src/idc/imgaug/filter/_sub_images_utils.py:747-748 | the label is some member's label, absent only when no member has one |
| Merging.ToObject | src/idc/imgaug/filter/_sub_images_utils.py:162-190 | the object has a non-empty polygon inside its rectangle, which is at least one pixel wide and high, and its metadata holds only the label, when there is one |
| Merging.BoundsBox | src/idc/imgaug/filter/_sub_images_utils.py:177-178 | the inclusive rectangle of a ring's bounds covers every point of the ring and is at least one pixel wide and high |
| Merging.MergedObjectSpec | src/idc/imgaug/filter/_sub_images_utils.py:742-760 | a merged object has the set's label, a score exactly when a member has one (the mean), and a rectangle covering its polygon |
| Merging.ScoresFromMembers | src/idc/imgaug/filter/_sub_images_utils.py:749-750 | a score was collected only from a member that has one |
| Merging.Unmerged | src/idc/imgaug/filter/_sub_images_utils.py:736-739 | exactly the objects not marked for merging are kept |
| Merging.MergeAll | src/idc/imgaug/filter/_sub_images_utils.py:742-760 | fails exactly when the objects of some merge set cannot be merged; otherwise object j is the merged object of set j, members taken in ascending order |
| Merging.MergeSetsInRange | src/idc/imgaug/filter/_sub_images_utils.py:715-732 | every merge set holds objects of the record that share one label |
| Merging.MergePolygonsSpec | src/idc/imgaug/filter/_sub_images_utils.py:634-767 | without parallel pairs the objects are returned unchanged; otherwise the unmerged objects come first, in order, followed by the merged object of each merge set in set order; an object is marked exactly when it lies in a set, and every set shares one label |
| Merging.MergeRecord | src/idc/imgaug/filter/_sub_images_utils.py:634-767 | only the objects change, and they become the merged objects with the default thresholds |
| Merging.MergeDetections | src/idc/imgaug/filter/_sub_images_utils.py:634-767 | the loops compute the merged record |
| Merging.MergeSet | src/idc/imgaug/filter/_sub_images_utils.py:742-760 | the loop over a set's members computes its merged object |
| Merging.MergeMember | src/idc/imgaug/filter/_sub_images_utils.py:746-754 | one member's step keeps the first label, the scores so far and the union so far, or reports the failure that makes the whole set fail |
| Merging.MergedFrom | src/idc/imgaug/filter/_sub_images_utils.py:755-760 | the object built after the loop is the merged object of the set |
| Merging.MergeObjects | src/idc/imgaug/filter/_sub_images_utils.py:634-767 | the loops compute `merge_polygons` |
| Merging.KeepUnmerged | src/idc/imgaug/filter/_sub_images_utils.py:736-739 | the loop keeps the unmarked objects |
| Merging.MergeEach | src/idc/imgaug/filter/_sub_images_utils.py:742-760 | the loop computes the merged objects of the merge sets, failing exactly when one set fails |
| Merging.MergeOnRequest | src/idc/imgaug/filter/_meta_sub_images.py:201-202 | without the option or for another kind the record is unchanged; merging only touches the annotation |
| MetaSubImagesFilter.TransferTiles | src/idc/imgaug/filter/_meta_sub_images.py:191-197 | the full record keeps name, format, mode, metadata and kind |
| MetaSubImagesFilter.SkippedTiles | src/idc/imgaug/filter/_meta_sub_images.py:193-195 | tiles the base filter turns into lists leave the record unchanged |
| MetaSubImagesFilter.ProcessItemSpec | src/idc/imgaug/filter/_meta_sub_images.py:182-203 | an unhandled record passes through and a failed extraction fails; otherwise name, format, mode, metadata and kind are kept and an unmerged annotated result is already pruned |
| MetaSubImagesFilter.ProcessOne | src/idc/imgaug/filter/_meta_sub_images.py:183-203 | the statements compute one record's output |
| MetaSubImagesFilter.Reassemble | src/idc/imgaug/filter/_meta_sub_images.py:190-198 | the transfer loop on the canvas, then pruning, computes the reassembled record |
| MetaSubImagesFilter.MetaSubImages.Initialize | src/idc/imgaug/filter/_meta_sub_images.py:143-171 | fails exactly without regions or with unparsable ones; otherwise the defaults are set and the regions parsed |
| MetaSubImagesFilter.MetaSubImages.Process | src/idc/imgaug/filter/_meta_sub_images.py:173-205 | one output per record, in order; fails when one record fails |
| MetaSubImagesFilter.ProcessAll | src/idc/imgaug/filter/_meta_sub_images.py:180-205 | the loop over the records yields one output per record, in order, and fails when one record fails |
| SubImagesFilter.RegionsFor | src/idc/imgaug/filter/_sub_images.py:200-216 | fixed regions when parsed, else the generated text split on spaces and parsed |
| SubImagesFilter.GeneratedRoundTrip | src/idc/imgaug/filter/_sub_images.py:208-209 | generated rectangles rendered and joined by spaces are parsed back to exactly those rectangles |
| SubImagesFilter.Outputs | src/idc/imgaug/filter/_sub_images.py:217-225 | fails exactly when the regions cannot be parsed |
| SubImagesFilter.SubImages.Normalise | src/idc/imgaug/filter/_sub_images.py:162-169 | an empty region list becomes none; rows/columns and height/width are kept only as complete pairs |
| SubImagesFilter.SubImages.ApplyDefaults | src/idc/imgaug/filter/_sub_images.py:172-185 | unset sorting, partial, suppression, suffix and overlaps take their defaults; the regions are not parsed yet; every other option stays |
| SubImagesFilter.SubImages.Initialize | src/idc/imgaug/filter/_sub_images.py:156-188 | fails exactly when nothing says where to cut or fixed regions do not parse; otherwise the defaults are set |
| SubImagesFilter.SubImages.Process | src/idc/imgaug/filter/_sub_images.py:190-227 | the outputs of every record, concatenated in order |
| CropToLabelFilter.FirstMatch | src/idc/imgaug/filter/_crop_to_label.py:122-125 | the first object carrying the label, none before it; none when no object carries it |
| CropToLabelFilter.FindRegion | src/idc/imgaug/filter/_crop_to_label.py:122-125 | the search loop finds the first match |
| CropToLabelFilter.Missing | src/idc/imgaug/filter/_crop_to_label.py:117-120 | a record that cannot be cropped is kept exactly when missing records are kept |
| CropToLabelFilter.CropSpec | src/idc/imgaug/filter/_crop_to_label.py:103-143 | at most one record, exactly one when missing records are kept; a new record comes from the first labelled object's box |
| CropToLabelFilter.OutputsGate | src/idc/imgaug/filter/_crop_to_label.py:154-163 | records of another kind or without objects are dropped unless missing records are kept |
| CropToLabelFilter.CropItem | src/idc/imgaug/filter/_crop_to_label.py:103-143 | the statements compute the crop |
| CropToLabelFilter.CropToLabel.Initialize | src/idc/imgaug/filter/_crop_to_label.py:93-101 | missing records are dropped by default; fails exactly without a label |
| CropToLabelFilter.CropToLabel.Process | src/idc/imgaug/filter/_crop_to_label.py:145-169 | the outputs of every record, concatenated in order |
| RegionOfInterestFilter.SelectionSpec | src/idc/imgaug/filter/_roi_images.py:125-129 | an object becomes a region exactly when it is selected by its label |
| RegionOfInterestFilter.SelectionAll | src/idc/imgaug/filter/_roi_images.py:126 | without labels every object becomes a region, in order |
| RegionOfInterestFilter.OutputsSpec | src/idc/imgaug/filter/_roi_images.py:115-139 | the extraction gets the selected objects' boxes and corners; what it does not process passes through |
| RegionOfInterestFilter.SelectRegions | src/idc/imgaug/filter/_roi_images.py:122-130 | the loop collects the selected boxes and corners |
| RegionOfInterestFilter.ProcessItem | src/idc/imgaug/filter/_roi_images.py:116-139 | the loop body computes one record's outputs |
| RegionOfInterestFilter.RegionOfInterestImages.LabelSet | src/idc/imgaug/filter/_roi_images.py:111-113 | the label set holds exactly the listed labels, none without a list |
| RegionOfInterestFilter.RegionOfInterestImages.Initialize | src/idc/imgaug/filter/_roi_images.py:93-101 | an empty label list means all objects; the suffix defaults |
| RegionOfInterestFilter.RegionOfInterestImages.Process | src/idc/imgaug/filter/_roi_images.py:103-141 | the outputs of every record, concatenated in order |
| ClipGrayscaleFilter.Clamp | src/idc/imgaug/filter/_clip_grayscale.py:143 | within 0..255 and the identity there |
| ClipGrayscaleFilter.ClipPixel | src/idc/imgaug/filter/_clip_grayscale.py:139-143 | within 0..255; pixels between the bounds stay; pixels below a positive minimum take the minimum replacement, or the maximum replacement when that replacement is itself above a maximum below 255; pixels above a maximum below 255 take the maximum replacement |
| ClipGrayscaleFilter.ClipImage | src/idc/imgaug/filter/_clip_grayscale.py:137-143 | every pixel clipped, size kept |
| ClipGrayscaleFilter.NoClippingIdentity | src/idc/imgaug/filter/_clip_grayscale.py:130-132 | with min 0 and max 255 clipping an 8-bit image changes nothing |
| ClipGrayscaleFilter.Clipped | src/idc/imgaug/filter/_clip_grayscale.py:135-150 | a grayscale record is clipped to 8 bits, others pass; name, format, mode, metadata and annotation are kept |
| ClipGrayscaleFilter.NoClippingRecord | src/idc/imgaug/filter/_clip_grayscale.py:130-132 | the batch short-cut agrees with clipping each 8-bit record |
| ClipGrayscaleFilter.ClipGrayscale.Initialize | src/idc/imgaug/filter/_clip_grayscale.py:105-121 | defaults 0, 0, 255, 255; fails exactly when the minimum is not below the maximum |
| ClipGrayscaleFilter.ClipGrayscale.Process | src/idc/imgaug/filter/_clip_grayscale.py:123-152 | the batch unchanged when nothing clips, else every record clipped, in order |
| CombineSubImages.FilesWithKeySpec | src/idc/imgaug/tool/combine_sub_images.py:36-46 | a file is in a key's list exactly when it is listed and has that key |
| CombineSubImages.GroupedFails | src/idc/imgaug/tool/combine_sub_images.py:39-41 | grouping fails exactly when a file name does not match |
| CombineSubImages.GroupedKeys | src/idc/imgaug/tool/combine_sub_images.py:42-45 | the keys are distinct and exactly those of the files |
| CombineSubImages.GroupedMembers | src/idc/imgaug/tool/combine_sub_images.py:43-45 | each group is the files with its key, in list order |
| CombineSubImages.GroupedSpec | src/idc/imgaug/tool/combine_sub_images.py:25-46 | fails exactly on a non-matching name; else every file lands in exactly its key's group, in order |
| CombineSubImages.GroupFiles | src/idc/imgaug/tool/combine_sub_images.py:25-46 | the loop computes the groups |
| CombineSubImages.CoordinateOfNumber | src/idc/imgaug/tool/combine_sub_images.py:49-65 | a group that renders an integer yields that integer |
| CombineSubImages.Offset | src/idc/imgaug/tool/combine_sub_images.py:84-90 | an offset exists exactly when both coordinates can be extracted |
| CombineSubImages.OneBasedOffsets | src/idc/imgaug/tool/combine_sub_images.py:87-89 | 1-based offsets are the 0-based ones less one in x and y |
| CombineSubImages.ExtractCoordinates | src/idc/imgaug/tool/combine_sub_images.py:68-91 | the loop computes the offsets |
| CombineSubImages.Absent | src/idc/imgaug/tool/combine_sub_images.py:137-138 | the annotation of a record built from a name and pixels keeps the kind and holds nothing |
| CombineSubImages.Stitched | src/idc/imgaug/tool/combine_sub_images.py:141-143 | the stitched record keeps name, format, mode, metadata and kind |
| CombineSubImages.MergedImageSpec | src/idc/imgaug/tool/combine_sub_images.py:132-139 | the combined record has the given name, the first image's format and kind, RGB mode and no metadata |
| CombineSubImages.PasteComposed | src/idc/imgaug/tool/combine_sub_images.py:141-143 | pasting one more sub-image over the composition of the ones before it composes them all: later sub-images over earlier ones |
| CombineSubImages.StitchedPixels | src/idc/imgaug/tool/combine_sub_images.py:141-143 | the stitched image keeps the full image's size; each cell holds the pixel of the last sub-image whose box covers it, and its old value where none does |
| CombineSubImages.MergedImagePixels | src/idc/imgaug/tool/combine_sub_images.py:132-143 | the combined image is `width` by `height`; each cell holds the pixel of the last sub-image whose box (at its offset, of its size) covers it, and is black where none does |
| CombineSubImages.MergeImages | src/idc/imgaug/tool/combine_sub_images.py:115-145 | the statements compute `merge_images` |
| CombineSubImages.StitchAll | src/idc/imgaug/tool/combine_sub_images.py:141-143 | the transfer loop on the canvas computes the stitched record |
| CombineSubImages.CombinedNameJpeg | src/idc/imgaug/tool/combine_sub_images.py:220 | JPEG groups get the extension ".jpg" |
| CombineSubImages.CombinedNamePlain | src/idc/imgaug/tool/combine_sub_images.py:220 | a format without the letter j becomes the extension in lower case |
| CombineSubImages.CombinedGroupSpec | src/idc/imgaug/tool/combine_sub_images.py:216-223 | the record's name carries the key and format; its kind is the first image's; unmerged, it is the merged image |
| CombineSubImages.CombinedSpec | src/idc/imgaug/tool/combine_sub_images.py:211-224 | one record per key, in key order, each from exactly the files with that key |
| CombineSubImages.CombineGroup | src/idc/imgaug/tool/combine_sub_images.py:216-223 | the statements compute one group's record |
| CombineSubImages.CombineKey | src/idc/imgaug/tool/combine_sub_images.py:216-223 | one key's group combined, as a function of the key |
| CombineSubImages.Combine | src/idc/imgaug/tool/combine_sub_images.py:171-224 | the loop over the groups computes the records written |
| CombineSubImages.CombineAll | src/idc/imgaug/tool/combine_sub_images.py:215-224 | the loop over the keys yields one record per key, in key order, and fails when one group fails |

## Left out

- Reading, writing and encoding are left out. This covers image bytes (`io.BytesIO`, `Image.save`), the reader and writer set-up of the tool, `locate_files`, `write_image`, logging, `argparse`, `main` and `sys_main`. Pixels are kept as arrays. The reader is a parameter that returns records.
- Library code the engine calls is passed in, not modelled. This is listed above the Model table; the module `Records` says which geometry calls make up `Shapes`. `parse_filter` and the base filter's own initialisation are left out.
- The base filter returning `None` is not modelled: it returns one record or a list.
- Floating point is not modelled. Slopes, scores and their mean are exact reals. Shapely's float coordinates are taken to be integers, and the bounds of the intersection are taken as integers.
- Images are one channel of integer cells. RGB pixels and image modes other than by name are not modelled.
- Numpy dtypes are not modelled, so neither are `uint8` wrap-around and the dtype promotion of the replacement values. Clipping works on unbounded integers and clamps at the end.
- An exception is modelled as `None` for the whole call. Changes made before the exception are not modelled: the full record left behind by a failed transfer, and files written by earlier groups of the tool.
- Python's `int()` is modelled for an optional sign and decimal digits only. Surrounding whitespace and underscores are not accepted.
- `region_sorting is not REGION_SORTING_NONE` compares identity in the source. The model compares the text.
- Merging.PartnersBelow, Merging.MergeSets, Merging.BuildMergeSets: the partners of an object (the set `ns` behind `all_ = [i, *ns]`) are scanned in ascending order. CPython iterates a set of ints in hash-table order, which need not be ascending: `{3, 10}` iterates as 10, then 3. That order decides which existing merge set a group joins, so for some inputs the model's merge sets differ from the source's. Take same-label objects where 0 touches 3, 1 touches 10, and 2 touches 3 and 10. The source scans 2, 10, 3 and builds {0, 3} and {1, 2, 3, 10}; the model scans 2, 3, 10 and builds {0, 2, 3, 10} and {1, 10}.
- Merging.Ascending: the members of a merge set are merged in ascending order, not CPython's set order. All members of a set share one label (`Merging.MergeSetsShareLabel`), and the mean score and the union of the outlines do not depend on the order, so the merged object is the same.
- Merging.MergeOnRequest, Merging.MergeRecord, Merging.MergeDetections, CombineSubImages.CombinedGroup: both call sites use the engine's own `merge_polygons` from `_sub_images_utils.py`. The meta-sub-images filter imports `merge_polygons` from `idc.api`, whose code is not part of this model. The tool imports it from `idc.imgaug.filter`, whose `__init__.py` does not export it, so that import fails as written. Whether either caller reaches the local `merge_polygons`, and so the merge-set finding below, depends on code outside this model.
- Merging.MergeRecord: a detection record without objects is returned unchanged. The source first calls `get_absolute` on the record, whose code is not part of this model.
- `merge_polygons` goes through `is_normalized`, `get_absolute` and `to_normalized`. The model takes the objects as absolute.
- `make_list`/`flatten_list` are modelled as a plain list of records.
- Records.HasAnnotation: an annotation of a kind the engine does not handle counts as present.
- Reassembly.Canvas.TransferRegion: the record's state after a failed transfer is not stated.
- Reassembly.TransferAnnotation: a tile whose annotation is of another kind than the full record's gives None. A typed annotation cannot hold a foreign one. The source raises in most such cases, but a classification record without labels takes the tile's annotation as it is.
- Reassembly.PlaceObjects, Reassembly.Transfer, Reassembly.TransferAnnotation, Reassembly.Canvas.TransferRegion, Reassembly.Canvas.TransferAnn, MetaSubImagesFilter.ProcessItemSpec, MetaSubImagesFilter.ProcessOne, MetaSubImagesFilter.Reassemble, CombineSubImages.Stitched, CombineSubImages.StitchedPixels, CombineSubImages.MergeImages, CombineSubImages.MergedImagePixels and CombineSubImages.StitchAll: these follow the corrected object placement `Reassembly.Relocated`. The as-written placement is `Reassembly.RelocatedAsWritten` (see Findings).
- Merging.BuildMergeSets, Merging.MergePolygonsSpec, Merging.MergeRecord, Merging.MergeDetections, Merging.MergeObjects and Merging.MergeOnRequest: these follow the corrected merge-set scan `Merging.MergeSets`. The as-written scan is `Merging.MergeSetsAsWritten` (see Findings).
- Regions.SortByKeySpec: stability (objects with equal keys keep their order) is not stated.
- Text.Lower: only ASCII letters are lower-cased. Python's `str.lower` also folds other Unicode letters.
- Grids.PadLayer: its contents are stated only for targets at least the layer's size (`Grids.PadLayerGrows`).
- Merging.ToObject: a union result that is not a polygon with points gives no object. Shapely would still give bounds.
- Reassembly.Shift: every moved object gets a polygon. The source tests the bound method `has_polygon` without calling it, so the polygon branch always runs.

Where the repository's description and its code differ, the model follows the code:

- the tool does not prune the combined record;
- segmentation layers are written by slice assignment, which overwrites, and not added up.

## Findings

| source | as written | input that shows it | evidently intended | confidence | as-written member | corrected member |
|---|---|---|---|---|---|---|
| src/idc/imgaug/filter/_sub_images_utils.py:546-548 | a refit rebinds `region` to the whole image, so every later object of the same tile is shifted by (0, 0) | tile at (10, 0, 5, 5) in a 15-pixel-wide image with objects (0, 0, 5, 1) and (0, 2, 1, 1): the second lands at x = 0 | every object of a tile is shifted by the tile's offset, so the second lands at x = 10 | not executed | Reassembly.RelocatedAsWritten, Reassembly.RegionRebinding | Reassembly.Relocated, Reassembly.RelocatedSpec |
| src/idc/imgaug/filter/_sub_images_utils.py:720-732 | in the engine's own `merge_polygons` (whether the filter and the tool reach it depends on code outside this model, see Left out), the scan over a group's members stops at the first one already in a merge set, so later members join the set without being marked for merging | groups 0→{1} and 1→{2}: the set is {0, 1, 2} but only 0 and 1 are marked, so object 2 is kept unchanged and also merged | every member of a merge set is marked, so each object is either kept or merged | not executed | Merging.MergeSetsAsWritten, Merging.MergeSetsMissMember | Merging.MergeSets, Merging.MergeSetsCover |
