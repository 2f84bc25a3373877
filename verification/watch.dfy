/**
 * The whole watch: the constructor's nine part builders run in order into
 * one flat child list, and the clock starting at zero.
 */
module RoyalOak {
  import opened Geometry
  import opened Scene
  import opened Parts
  import opened Animation

  /** The child list, builder after builder, in the constructor's order. */
  function Build(): (r: seq<Node>)
    ensures |r| == 157
  {
    CaseParts() + Bezel() + Screws() + Dial() + Subdials() + Hands() + Indices() + Crown() + Bracelet()
  }

  /** A new watch: every part built, the clock at zero. */
  function NewWatch(): (w: Watch)
    ensures w.time == 0.0 && |w.children| == 157
  {
    Watch(0.0, Build())
  }

  /** Where each builder's nodes start in the child list. */
  const BezelAt: nat := 2
  const ScrewsAt: nat := 3
  const DialAt: nat := 19
  const SubdialsAt: nat := 23
  const HandsAt: nat := 69
  const IndicesAt: nat := 73
  const CrownAt: nat := 82
  const BraceletAt: nat := 97

  /** The child list is the builders' outputs laid end to end at the offsets above. */
  lemma BuildBlocks()
    ensures Build()[..BezelAt] == CaseParts()
    ensures Build()[BezelAt..ScrewsAt] == Bezel()
    ensures Build()[ScrewsAt..DialAt] == Screws()
    ensures Build()[DialAt..SubdialsAt] == Dial()
    ensures Build()[SubdialsAt..HandsAt] == Subdials()
    ensures Build()[HandsAt..IndicesAt] == Hands()
    ensures Build()[IndicesAt..CrownAt] == Indices()
    ensures Build()[CrownAt..BraceletAt] == Crown()
    ensures Build()[BraceletAt..] == Bracelet()
  {
    SliceOfConcat(CaseParts(), Bezel(), Screws(), Dial(), Subdials(), Hands(), Indices(), Crown(), Bracelet());
  }

  /** Nine blocks of the builders' sizes, laid end to end, are found again at the builders' offsets. */
  lemma SliceOfConcat(a: seq<Node>, b: seq<Node>, c: seq<Node>, d: seq<Node>, e: seq<Node>,
                      f: seq<Node>, g: seq<Node>, h: seq<Node>, i: seq<Node>)
    requires |a| == 2 && |b| == 1 && |c| == 16 && |d| == 4 && |e| == 46
    requires |f| == 4 && |g| == 9 && |h| == 15 && |i| == 60
    ensures var r := a + b + c + d + e + f + g + h + i;
      && r[..BezelAt] == a && r[BezelAt..ScrewsAt] == b && r[ScrewsAt..DialAt] == c
      && r[DialAt..SubdialsAt] == d && r[SubdialsAt..HandsAt] == e && r[HandsAt..IndicesAt] == f
      && r[IndicesAt..CrownAt] == g && r[CrownAt..BraceletAt] == h && r[BraceletAt..] == i
  {
  }

  /** The indices of the animated children: three subdial hands, then the three centre hands. */
  predicate IsHandIndex(k: nat) {
    k == 37 || k == 52 || k == 67 || k == 69 || k == 70 || k == 71
  }

  /** The tagging a complete child list has: one hand per animated role, at the indices above. */
  predicate TaggedAsBuilt(r: seq<Node>) {
    && |r| == 157
    && (forall k :: 0 <= k < 157 ==> (r[k].role != Untagged <==> IsHandIndex(k)))
    && r[37].role == Subdial(Seconds) && r[52].role == Subdial(Minutes) && r[67].role == Subdial(Hours)
    && r[69].role == Hour && r[70].role == Minute && r[71].role == Chrono
  }

  /** The tagging of the subdial block followed by the hands block. */
  predicate TaggedSubdialsAndHands(e: seq<Node>, f: seq<Node>) {
    && |e| == 46 && (forall k :: 0 <= k < 46 ==> (e[k].role != Untagged <==> k == 14 || k == 29 || k == 44))
    && e[14].role == Subdial(Seconds) && e[29].role == Subdial(Minutes) && e[44].role == Subdial(Hours)
    && |f| == 4 && f[0].role == Hour && f[1].role == Minute && f[2].role == Chrono && f[3].role == Untagged
  }

  /** Nine blocks with the builders' sizes and tagging, laid end to end, are tagged as built. */
  lemma AssemblyTags(a: seq<Node>, b: seq<Node>, c: seq<Node>, d: seq<Node>, e: seq<Node>,
                                        f: seq<Node>, g: seq<Node>, h: seq<Node>, i: seq<Node>)
    requires |a| == 2 && |b| == 1 && |c| == 16 && |d| == 4 && |g| == 9 && |h| == 15 && |i| == 60
    requires AllUntagged(a) && AllUntagged(b) && AllUntagged(c) && AllUntagged(d)
    requires AllUntagged(g) && AllUntagged(h) && AllUntagged(i)
    requires TaggedSubdialsAndHands(e, f)
    ensures TaggedAsBuilt(a + b + c + d + e + f + g + h + i)
  {
  }

  /**
   * Exactly six children are tagged, each animated role on exactly one of
   * them: the seconds, minutes and hours subdial hands at 37, 52 and 67,
   * the hour, minute and chronograph hands at 69, 70 and 71.
   */
  lemma BuildTags()
    ensures TaggedAsBuilt(Build())
  {
    CaseLayout(); BezelLayout(); ScrewsLayout(); DialLayout(); SubdialHandsTagged();
    HandsLayout(); IndicesLayout(); CrownLayout(); BraceletLayout();
    AssemblyTags(CaseParts(), Bezel(), Screws(), Dial(), Subdials(), Hands(), Indices(), Crown(), Bracelet());
  }

  /** The hand a role drives, in a child list tagged as built. */
  function HandIndex(role: Role): (k: nat)
    requires role != Untagged
    ensures IsHandIndex(k) && k < 157
  {
    match role
    case Hour => 69
    case Minute => 70
    case Chrono => 71
    case Subdial(c) => (match c case Seconds => 37 case Minutes => 52 case Hours => 67)
  }

  lemma {:induction false} TaggedRolesCountOnce(r: seq<Node>, role: Role)
    requires TaggedAsBuilt(r) && role != Untagged
    ensures CountRole(r, role) == 1
    ensures r[HandIndex(role)].role == role
  {
    CountRoleOne(r, role, HandIndex(role));
  }

  /** Every animated role tags exactly one child of the built watch, so each role names one hand. */
  lemma EachRoleTagsOneChild(role: Role)
    requires role != Untagged
    ensures CountRole(Build(), role) == 1
    ensures Build()[HandIndex(role)].role == role
  {
    BuildTags();
    TaggedRolesCountOnce(Build(), role);
  }

  /** A watch whose clock reads n steps and whose children are tagged as built, after n > 0 frames. */
  predicate AfterFrames(w: Watch, n: nat) {
    && w.time == Step * n as real
    && TaggedAsBuilt(w.children)
    && (n > 0 ==> HandsTurned(w.children, w.time))
  }

  /**
   * After n frames from construction the clock reads exactly 0.01·n, the
   * watch keeps its 157 children, tagged as built, and (once a frame has
   * run) every hand is turned to minus the time times its role's rate.
   */
  lemma FramesFromNew(n: nat)
    ensures AfterFrames(Frames(NewWatch(), n), n)
  {
    BuildTags();
    FramesKeepTags(NewWatch(), n);
  }

  lemma {:induction false} FramesKeepTags(w: Watch, n: nat)
    requires w.time == 0.0 && TaggedAsBuilt(w.children)
    ensures AfterFrames(Frames(w, n), n)
  {
    FramesClock(w, n);
    var u := Frames(w, n);
    SameRolesKeepTags(w.children, u.children);
  }

  /** Tagging as built depends on the children's roles alone. */
  lemma SameRolesKeepTags(a: seq<Node>, b: seq<Node>)
    requires TaggedAsBuilt(a) && |b| == |a|
    requires forall k :: 0 <= k < |a| ==> b[k].role == a[k].role
    ensures TaggedAsBuilt(b)
  {
  }

  /**
   * After any positive number of frames the hands stand at these angles
   * (t the clock): hour −0.1t, minute −1.2t, chronograph −10t, and on the
   * subdials seconds −10t, minutes −0.5t, hours −0.05t.
   */
  lemma HandAngles(w: Watch, n: nat)
    requires n > 0 && AfterFrames(w, n)
    ensures w.children[69].rotation.z == Radians(-w.time * 0.1)
    ensures w.children[70].rotation.z == Radians(-w.time * 1.2)
    ensures w.children[71].rotation.z == Radians(-w.time * 10.0)
    ensures w.children[37].rotation.z == Radians(-w.time * 10.0)
    ensures w.children[52].rotation.z == Radians(-w.time * 0.5)
    ensures w.children[67].rotation.z == Radians(-w.time * 0.05)
    ensures w.children[70].rotation.z.radians == 12.0 * w.children[69].rotation.z.radians
  {
  }

  /**
   * The first frame after construction: the clock reads 0.01 and the
   * hands stand at −0.01 times their rates.
   */
  lemma FirstFrame()
    ensures UpdateTime(NewWatch()).time == 0.01
    ensures UpdateTime(NewWatch()).children[69].rotation.z == Radians(-0.001)
    ensures UpdateTime(NewWatch()).children[70].rotation.z == Radians(-0.012)
    ensures UpdateTime(NewWatch()).children[71].rotation.z == Radians(-0.1)
    ensures UpdateTime(NewWatch()).children[37].rotation.z == Radians(-0.1)
    ensures UpdateTime(NewWatch()).children[52].rotation.z == Radians(-0.005)
    ensures UpdateTime(NewWatch()).children[67].rotation.z == Radians(-0.0005)
  {
    BuildTags();
    FirstFrameFrom(NewWatch());
  }

  lemma FirstFrameFrom(w: Watch)
    requires w.time == 0.0 && TaggedAsBuilt(w.children)
    ensures var u := UpdateTime(w);
      && u.time == 0.01
      && u.children[69].rotation.z == Radians(-0.001)
      && u.children[70].rotation.z == Radians(-0.012)
      && u.children[71].rotation.z == Radians(-0.1)
      && u.children[37].rotation.z == Radians(-0.1)
      && u.children[52].rotation.z == Radians(-0.005)
      && u.children[67].rotation.z == Radians(-0.0005)
  {
    FramesKeepTags(w, 1);
    assert Frames(w, 1) == UpdateTime(w);
    HandAngles(UpdateTime(w), 1);
  }

  lemma AssemblyValid(a: seq<Node>, b: seq<Node>, c: seq<Node>, d: seq<Node>, e: seq<Node>,
                                         f: seq<Node>, g: seq<Node>, h: seq<Node>, i: seq<Node>)
    requires AllValid(a) && AllValid(b) && AllValid(c) && AllValid(d) && AllValid(e)
    requires AllValid(f) && AllValid(g) && AllValid(h) && AllValid(i)
    ensures AllValid(a + b + c + d + e + f + g + h + i)
  {
  }

  /**
   * Every child's shape lies in the geometry factory's parameter domains:
   * positive sizes, at least three segments, proper outlines.
   */
  lemma BuildShapesValid()
    ensures AllValid(Build())
  {
    CaseLayout(); BezelLayout(); ScrewsLayout(); DialLayout(); SubdialHandsTagged();
    HandShapes(); IndicesLayout(); CrownLayout(); BraceletLayout();
    AssemblyValid(CaseParts(), Bezel(), Screws(), Dial(), Subdials(), Hands(), Indices(), Crown(), Bracelet());
  }
}
