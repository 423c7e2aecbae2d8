/**
 * The index and vertex fills of hl1_studiomodel_setup.cpp: the subtree of a bone, the
 * bone skeleton drawn as a line strip, and the attachment points. The Assimp import
 * around them is not part of this model.
 */
module Setup {
  import opened MathFunctions
  import opened CppTypes
  import opened GlVertex
  import opened Studio
  import opened Stride
  import opened Buffers
  import opened BoxBuilder

  /** Every child listed by a bone is a later bone. */
  ghost predicate ChildrenFollowParents(bones: seq<Bone>)
  {
    forall i, k :: 0 <= i < |bones| && 0 <= k < |bones[i].children| ==> i < bones[i].children[k] < |bones|
  }

  /** The children lists are exactly the bones whose parent is that bone, as the importer builds them. */
  ghost predicate ChildrenMatchParents(bones: seq<Bone>)
  {
    forall i, c :: 0 <= i < |bones| ==> (c in bones[i].children <==> 0 <= c < |bones| && bones[c].parentIndex == i)
  }

  /** The bone's index and the subtrees of its children. */
  ghost function Subtree(bones: seq<Bone>, b: int): set<int>
    requires 0 <= b < |bones| && ChildrenFollowParents(bones)
    decreases |bones| - b, |bones[b].children| + 1
  {
    {bones[b].index} + ChildSubtrees(bones, b, |bones[b].children|)
  }

  /** The subtrees of the first k children of bone b. */
  ghost function ChildSubtrees(bones: seq<Bone>, b: int, k: nat): set<int>
    requires 0 <= b < |bones| && k <= |bones[b].children| && ChildrenFollowParents(bones)
    decreases |bones| - b, k
  {
    if k == 0 then {} else ChildSubtrees(bones, b, k - 1) + Subtree(bones, bones[b].children[k - 1])
  }

  /**
   * `add_bone_and_children_bones_to_set(bone, set)`: inserts the bone's index and
   * recurses into each child; the set is an in/out parameter.
   */
  method AddBoneAndChildrenBonesToSet(bones: seq<Bone>, b: int, bonesSet: set<int>) returns (result: set<int>)
    requires 0 <= b < |bones| && ChildrenFollowParents(bones)
    ensures result == bonesSet + Subtree(bones, b)
    decreases |bones| - b
  {
    result := bonesSet + {bones[b].index};
    var children := bones[b].children;
    for k := 0 to |children|
      invariant result == bonesSet + {bones[b].index} + ChildSubtrees(bones, b, k)
    {
      result := AddBoneAndChildrenBonesToSet(bones, children[k], result);
    }
  }

  /** a is j or an ancestor of j through the parent links. */
  ghost predicate IsAncestorOrSelf(bones: seq<Bone>, a: int, j: int)
    requires WellFormedBones(bones, 0) && ParentsPrecedeChildren(bones) && 0 <= j < |bones|
    decreases j
  {
    j == a || (bones[j].parentIndex != -1 && IsAncestorOrSelf(bones, a, bones[j].parentIndex))
  }

  /** Bone arrays as the importer leaves them: indices, ordering and children lists all consistent. */
  ghost predicate Skeleton(bones: seq<Bone>)
  {
    WellFormedBones(bones, 0) && ParentsPrecedeChildren(bones) && ChildrenMatchParents(bones)
  }

  lemma SkeletonChildrenFollow(bones: seq<Bone>)
    requires Skeleton(bones)
    ensures ChildrenFollowParents(bones)
  {
    forall i, k | 0 <= i < |bones| && 0 <= k < |bones[i].children|
      ensures i < bones[i].children[k] < |bones|
    {
      var c := bones[i].children[k];
      assert c in bones[i].children;
      assert bones[c].parentIndex == i && bones[c].parentIndex < c;
    }
  }

  /** An ancestor chain through a child extends to its parent. */
  lemma {:induction false} AncestorThroughChild(bones: seq<Bone>, b: int, c: int, x: int)
    requires Skeleton(bones) && 0 <= b < |bones| && 0 <= c < |bones| && 0 <= x < |bones| && bones[c].parentIndex == b
    requires IsAncestorOrSelf(bones, c, x)
    ensures IsAncestorOrSelf(bones, b, x)
    decreases x
  {
    if x == c {
      assert IsAncestorOrSelf(bones, b, b);
    } else {
      AncestorThroughChild(bones, b, c, bones[x].parentIndex);
    }
  }

  /** Everything in a subtree descends from its root. */
  lemma {:induction false} SubtreeDescends(bones: seq<Bone>, b: int, x: int)
    requires Skeleton(bones) && 0 <= b < |bones|
    requires ChildrenFollowParents(bones) && x in Subtree(bones, b)
    ensures 0 <= x < |bones| && IsAncestorOrSelf(bones, b, x)
    decreases |bones| - b, |bones[b].children| + 1
  {
    if x != bones[b].index {
      ChildSubtreesDescend(bones, b, |bones[b].children|, x);
    }
  }

  lemma {:induction false} ChildSubtreesDescend(bones: seq<Bone>, b: int, k: nat, x: int)
    requires Skeleton(bones) && 0 <= b < |bones| && k <= |bones[b].children|
    requires ChildrenFollowParents(bones) && x in ChildSubtrees(bones, b, k)
    ensures 0 <= x < |bones| && IsAncestorOrSelf(bones, b, x)
    decreases |bones| - b, k
  {
    var c := bones[b].children[k - 1];
    if x in ChildSubtrees(bones, b, k - 1) {
      ChildSubtreesDescend(bones, b, k - 1, x);
    } else {
      assert c in bones[b].children;
      SubtreeDescends(bones, c, x);
      AncestorThroughChild(bones, b, c, x);
    }
  }

  /** The k-th child's whole subtree is among the subtrees of the first k + 1 children. */
  lemma {:induction false} ChildSubtreesGrow(bones: seq<Bone>, b: int, k: nat, n: nat)
    requires 0 <= b < |bones| && k < n <= |bones[b].children| && ChildrenFollowParents(bones)
    ensures Subtree(bones, bones[b].children[k]) <= ChildSubtrees(bones, b, n)
    decreases n
  {
    if k < n - 1 {
      ChildSubtreesGrow(bones, b, k, n - 1);
    }
  }

  /** A subtree holds the children of each of its members. */
  lemma {:induction false} SubtreeClosedUnderChildren(bones: seq<Bone>, b: int, x: int, c: int)
    requires Skeleton(bones) && 0 <= b < |bones| && ChildrenFollowParents(bones)
    requires x in Subtree(bones, b) && 0 <= x < |bones| && c in bones[x].children
    ensures c in Subtree(bones, b)
    decreases |bones| - b, |bones[b].children| + 1
  {
    if x == bones[b].index {
      var k :| 0 <= k < |bones[b].children| && bones[b].children[k] == c;
      ChildSubtreesGrow(bones, b, k, |bones[b].children|);
    } else {
      ChildSubtreesClosed(bones, b, |bones[b].children|, x, c);
    }
  }

  lemma {:induction false} ChildSubtreesClosed(bones: seq<Bone>, b: int, k: nat, x: int, c: int)
    requires Skeleton(bones) && 0 <= b < |bones| && k <= |bones[b].children| && ChildrenFollowParents(bones)
    requires x in ChildSubtrees(bones, b, k) && 0 <= x < |bones| && c in bones[x].children
    ensures c in ChildSubtrees(bones, b, k)
    decreases |bones| - b, k
  {
    if x in ChildSubtrees(bones, b, k - 1) {
      ChildSubtreesClosed(bones, b, k - 1, x, c);
    } else {
      SubtreeClosedUnderChildren(bones, bones[b].children[k - 1], x, c);
    }
  }

  /** Every descendant of b is in its subtree. */
  lemma {:induction false} DescendantsInSubtree(bones: seq<Bone>, b: int, j: int)
    requires Skeleton(bones) && 0 <= b < |bones| && 0 <= j < |bones| && IsAncestorOrSelf(bones, b, j)
    ensures ChildrenFollowParents(bones) && j in Subtree(bones, b)
    decreases j
  {
    SkeletonChildrenFollow(bones);
    if j != b {
      var p := bones[j].parentIndex;
      DescendantsInSubtree(bones, b, p);
      assert j in bones[p].children;
      SubtreeClosedUnderChildren(bones, b, p, j);
    }
  }

  /**
   * On a consistent skeleton, the set `add_bone_and_children_bones_to_set` collects is
   * exactly the bone and its descendants through the parent links.
   */
  lemma SubtreeIsDescendants(bones: seq<Bone>, b: int, j: int)
    requires Skeleton(bones) && 0 <= b < |bones|
    ensures ChildrenFollowParents(bones)
    ensures j in Subtree(bones, b) <==> 0 <= j < |bones| && IsAncestorOrSelf(bones, b, j)
  {
    SkeletonChildrenFollow(bones);
    if j in Subtree(bones, b) {
      SubtreeDescends(bones, b, j);
    }
    if 0 <= j < |bones| && IsAncestorOrSelf(bones, b, j) {
      DescendantsInSubtree(bones, b, j);
    }
  }

  // ---------------------------------------------------------------------------------
  // Bone vertices and the skeleton line strip.

  /**
   * `setup_buffer_bones`, vertex fill: one value-initialised vertex per bone whose
   * `boneid` is that bone's index.
   */
  method BoneVertices(bones: seq<Bone>) returns (vertices: seq<GlVertex>)
    ensures |vertices| == |bones|
    ensures forall i :: 0 <= i < |bones| ==> vertices[i] == ZERO_VERTEX.(boneid := bones[i].index)
  {
    vertices := Resize([], |bones|, ZERO_VERTEX);
    for i := 0 to |bones|
      invariant |vertices| == |bones|
      invariant forall k :: 0 <= k < i ==> vertices[k] == ZERO_VERTEX.(boneid := bones[k].index)
      invariant forall k :: i <= k < |bones| ==> vertices[k] == ZERO_VERTEX
    {
      vertices := vertices[i := vertices[i].(boneid := bones[i].index)];
    }
  }

  /** Bone i continues the strip: its parent is the bone emitted just before it (for bone 0, its own parent). */
  predicate Continues(bones: seq<Bone>, i: int)
    requires 0 <= i < |bones|
  {
    bones[i].parentIndex == if i == 0 then bones[0].parentIndex else bones[i - 1].index
  }

  /** What bone i contributes to the strip: its index, after a restart and its parent when it breaks the chain. */
  function Group(bones: seq<Bone>, i: int): (g: seq<u32>)
    requires 0 <= i < |bones|
    ensures |g| == if Continues(bones, i) then 1 else 3
    ensures g[|g| - 1] == ToU32(bones[i].index)
    ensures !Continues(bones, i) ==> g[0] == PRIMITIVE_RESTART_INDEX && g[1] == ToU32(bones[i].parentIndex)
  {
    if Continues(bones, i) then [ToU32(bones[i].index)]
    else [PRIMITIVE_RESTART_INDEX, ToU32(bones[i].parentIndex), ToU32(bones[i].index)]
  }

  /** The strip the first k bones produce. */
  function BoneStrip(bones: seq<Bone>, k: nat): seq<u32>
    requires k <= |bones|
  {
    if k == 0 then [] else BoneStrip(bones, k - 1) + Group(bones, k - 1)
  }

  /** How many of the first k bones break the chain. */
  function Breaks(bones: seq<Bone>, k: nat): nat
    requires k <= |bones|
  {
    if k == 0 then 0 else Breaks(bones, k - 1) + if Continues(bones, k - 1) then 0 else 1
  }

  /**
   * `build_bone_segments(bone_segments)`: appends the strip to the output vector; the
   * running `parent_index` starts at bone 0's parent and becomes each bone's index.
   */
  method BuildBoneSegments(bones: seq<Bone>, boneSegments: seq<u32>) returns (result: seq<u32>)
    requires |bones| >= 1
    ensures result == boneSegments + BoneStrip(bones, |bones|)
  {
    result := boneSegments;
    var parentIndex := bones[0].parentIndex;
    for i := 0 to |bones|
      invariant result == boneSegments + BoneStrip(bones, i)
      invariant parentIndex == if i == 0 then bones[0].parentIndex else bones[i - 1].index
    {
      if bones[i].parentIndex == parentIndex {
        result := result + [ToU32(bones[i].index)];
      } else {
        result := result + [PRIMITIVE_RESTART_INDEX, ToU32(bones[i].parentIndex), ToU32(bones[i].index)];
      }
      parentIndex := bones[i].index;
    }
  }

  /** The strip has one entry per bone and two more per chain break. */
  lemma {:induction false} BoneStripLength(bones: seq<Bone>, k: nat)
    requires k <= |bones|
    ensures |BoneStrip(bones, k)| == k + 2 * Breaks(bones, k)
  {
    if k > 0 {
      BoneStripLength(bones, k - 1);
    }
  }

  /** The strip of the first j bones is a prefix of the strip of the first k. */
  lemma {:induction false} BoneStripPrefix(bones: seq<Bone>, j: nat, k: nat)
    requires j <= k <= |bones|
    ensures BoneStrip(bones, j) <= BoneStrip(bones, k)
    decreases k - j
  {
    if j < k {
      BoneStripPrefix(bones, j, k - 1);
    }
  }

  /**
   * Bone i's index is the entry at position i + 2 * (breaks among bones 0..i): every
   * bone appears as a trailing entry, in index order.
   */
  lemma TrailingEntries(bones: seq<Bone>, i: nat)
    requires i < |bones|
    ensures i + 2 * Breaks(bones, i + 1) < |BoneStrip(bones, |bones|)|
    ensures BoneStrip(bones, |bones|)[i + 2 * Breaks(bones, i + 1)] == ToU32(bones[i].index)
    ensures i + 1 < |bones| ==> i + 2 * Breaks(bones, i + 1) < i + 1 + 2 * Breaks(bones, i + 2)
  {
    BoneStripLength(bones, i + 1);
    BoneStripPrefix(bones, i + 1, |bones|);
  }

  /** The strip never starts with a restart: its first entry is bone 0's index. */
  lemma FirstEntryIsBoneZero(bones: seq<Bone>)
    requires |bones| >= 1
    ensures BoneStrip(bones, |bones|)[0] == ToU32(bones[0].index)
  {
    BoneStripPrefix(bones, 1, |bones|);
  }

  /** The bone-to-parent links of the first k bones, parent first. */
  ghost function ParentLinks(bones: seq<Bone>, k: nat): set<(int, int)>
    requires k <= |bones|
  {
    set i | 0 <= i < k && bones[i].parentIndex != -1 :: (bones[i].parentIndex, i)
  }

  /** Appending one entry adds at most the segment from the previous entry. */
  lemma SegmentsSnoc(s: seq<u32>, x: u32, restart: u32)
    ensures Segments(s + [x], restart)
         == Segments(s, restart) + if |s| > 0 && s[|s| - 1] != restart && x != restart
                                     then {SegmentAt(s + [x], |s| - 1)} else {}
  {
    var t := s + [x];
    forall k | 0 <= k < |s| - 1
      ensures Joined(t, restart, k) == Joined(s, restart, k) && SegmentAt(t, k) == SegmentAt(s, k)
    {
    }
    forall e | e in Segments(t, restart)
      ensures e in Segments(s, restart) || (|s| > 0 && s[|s| - 1] != restart && x != restart && e == SegmentAt(t, |s| - 1))
    {
      var k :| 0 <= k < |t| - 1 && Joined(t, restart, k) && SegmentAt(t, k) == e;
      if k < |s| - 1 {
        assert Joined(s, restart, k) && SegmentAt(s, k) == e;
      }
    }
    forall e | e in Segments(s, restart)
      ensures e in Segments(t, restart)
    {
      var k :| 0 <= k < |s| - 1 && Joined(s, restart, k) && SegmentAt(s, k) == e;
      assert Joined(t, restart, k) && SegmentAt(t, k) == e;
    }
    if |s| > 0 && s[|s| - 1] != restart && x != restart {
      assert Joined(t, restart, |s| - 1);
    }
  }

  lemma ParentLinksStep(bones: seq<Bone>, k: nat)
    requires k < |bones|
    ensures ParentLinks(bones, k + 1)
         == ParentLinks(bones, k) + if bones[k].parentIndex != -1 then {(bones[k].parentIndex, k)} else {}
  {
  }

  /** Skeletons small enough that no bone index collides with the restart marker. */
  ghost predicate Addressable(bones: seq<Bone>)
  {
    WellFormedBones(bones, 0) && ParentsPrecedeChildren(bones) && |bones| < 0xFFFF_FFFF
  }

  /**
   * The skeleton strip draws exactly one line per bone with a parent, from the parent
   * to the bone: a root that is not first restarts twice, since `-1` becomes the marker.
   */
  lemma {:induction false} BoneStripDrawsParentLinks(bones: seq<Bone>, k: nat)
    requires Addressable(bones) && k <= |bones|
    ensures Segments(BoneStrip(bones, k), PRIMITIVE_RESTART_INDEX) == ParentLinks(bones, k)
  {
    if k > 0 {
      var R := PRIMITIVE_RESTART_INDEX;
      var i := k - 1;
      var s := BoneStrip(bones, i);
      var p := bones[i].parentIndex;
      BoneStripDrawsParentLinks(bones, i);
      ParentLinksStep(bones, i);
      assert ToU32(i) == i as u32;
      if Continues(bones, i) {
        SegmentsSnoc(s, ToU32(i), R);
        if i > 0 {
          assert s[|s| - 1] == ToU32(i - 1) == (i - 1) as u32;
          assert SegmentAt(s + [ToU32(i)], |s| - 1) == (p, i);
        } else {
          assert p == -1;
        }
      } else {
        var g := Group(bones, i);
        assert BoneStrip(bones, k) == s + [R] + [ToU32(p)] + [ToU32(i)];
        SegmentsSnoc(s, R, R);
        SegmentsSnoc(s + [R], ToU32(p), R);
        SegmentsSnoc(s + [R] + [ToU32(p)], ToU32(i), R);
        if p == -1 {
          assert ToU32(p) == R;
        } else {
          assert ToU32(p) == p as u32;
          assert SegmentAt(s + [R] + [ToU32(p)] + [ToU32(i)], |s| + 1) == (p, i);
        }
      }
    }
  }

  /** `setup_buffer_bones`: the bone vertices and strip go into the shared buffer. */
  method SetupBufferBones(bones: seq<Bone>, builder: BufferBuilder, stride: MeshBufferStride)
    requires |bones| >= 1
    modifies builder, stride
    ensures stride.vertexStartIndex == ToInt32(|old(builder.vertices)|)
    ensures stride.indiceStartIndex == ToInt32(|old(builder.indices)|)
    ensures stride.numVertices == ToInt32(|bones|)
    ensures stride.numIndices == ToInt32(|BoneStrip(bones, |bones|)|)
    ensures |builder.vertices| == |old(builder.vertices)| + |bones|
    ensures builder.vertices[..|old(builder.vertices)|] == old(builder.vertices)
    ensures forall i :: 0 <= i < |bones| ==>
      builder.vertices[|old(builder.vertices)| + i] == ZERO_VERTEX.(boneid := bones[i].index)
    ensures builder.indices
         == old(builder.indices) + Rebased(BoneStrip(bones, |bones|), PRIMITIVE_RESTART_INDEX, stride.vertexStartIndex)
  {
    var vertices := BoneVertices(bones);
    var indices := BuildBoneSegments(bones, []);
    builder.Append(vertices, indices, PRIMITIVE_RESTART_INDEX, stride);
  }

  // ---------------------------------------------------------------------------------
  // Attachments.

  /** The indices 0, 1, ..., n - 1, as the unsigned values the index buffer holds. */
  function Iota(n: nat): (r: seq<u32>)
    ensures |r| == n && forall i :: 0 <= i < n ==> r[i] == ToU32(i)
  {
    seq(n, i => ToU32(i))
  }

  /**
   * `setup_buffer_attachments`, fills: indices 0, 1, ..., n - 1, and vertex i at
   * attachment i's position carrying its bone's index (`Attachment.bone` holds it).
   */
  method AttachmentBuffers(attachments: seq<Attachment>) returns (vertices: seq<GlVertex>, indices: seq<u32>)
    ensures |vertices| == |attachments| && |indices| == |attachments|
    ensures forall i :: 0 <= i < |attachments| ==> indices[i] == ToU32(i)
    ensures indices == Iota(|attachments|)
    ensures forall i :: 0 <= i < |attachments| ==>
      vertices[i] == ZERO_VERTEX.(position := attachments[i].position, boneid := attachments[i].bone)
  {
    vertices := Resize([], |attachments|, ZERO_VERTEX);
    indices := Resize([], |attachments|, 0);
    for i := 0 to |indices|
      invariant |indices| == |attachments|
      invariant forall k :: 0 <= k < i ==> indices[k] == ToU32(k)
    {
      indices := indices[i := ToU32(i)];
    }
    for i := 0 to |attachments|
      invariant |vertices| == |attachments|
      invariant forall k :: 0 <= k < i ==>
        vertices[k] == ZERO_VERTEX.(position := attachments[k].position, boneid := attachments[k].bone)
      invariant forall k :: i <= k < |attachments| ==> vertices[k] == ZERO_VERTEX
    {
      vertices := vertices[i := vertices[i].(position := attachments[i].position, boneid := attachments[i].bone)];
    }
  }

  /** `setup_buffer_attachments`: the attachment points go into the shared buffer. */
  method SetupBufferAttachments(attachments: seq<Attachment>, builder: BufferBuilder, stride: MeshBufferStride)
    modifies builder, stride
    ensures stride.vertexStartIndex == ToInt32(|old(builder.vertices)|)
    ensures stride.indiceStartIndex == ToInt32(|old(builder.indices)|)
    ensures stride.numVertices == ToInt32(|attachments|) && stride.numIndices == ToInt32(|attachments|)
    ensures |builder.vertices| == |old(builder.vertices)| + |attachments|
    ensures builder.vertices[..|old(builder.vertices)|] == old(builder.vertices)
    ensures forall i :: 0 <= i < |attachments| ==>
      builder.vertices[|old(builder.vertices)| + i]
        == ZERO_VERTEX.(position := attachments[i].position, boneid := attachments[i].bone)
    ensures builder.indices
         == old(builder.indices) + Rebased(Iota(|attachments|), PRIMITIVE_RESTART_INDEX, stride.vertexStartIndex)
  {
    var vertices, indices := AttachmentBuffers(attachments);
    builder.Append(vertices, indices, PRIMITIVE_RESTART_INDEX, stride);
  }
}
