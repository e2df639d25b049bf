/**
 * The inertial measurement unit of biorbd: a positioned node plus two
 * boolean tags (technical, anatomical), each held behind a shared pointer.
 *
 * The positioned node is a value here; the tags live in heap cells (`Flag`)
 * so that shallow copies of an IMU share them, as the C++ shared pointers do.
 */
module RigidBody {

  /**
   * A `RotoTransNode`: a 4x4 transform given by its sixteen entries, the
   * node's name and its parent's name. Its own operations are not part of
   * this model; copying it deeply yields an equal value.
   */
  datatype RotoTransNode = RotoTransNode(entries: seq<real>, name: string, parent: string)

  /** The default-constructed node: the identity transform, with no names. */
  const DefaultNode := RotoTransNode(
    [1.0, 0.0, 0.0, 0.0,
     0.0, 1.0, 0.0, 0.0,
     0.0, 0.0, 1.0, 0.0,
     0.0, 0.0, 0.0, 1.0], "", "")

  /** A `std::shared_ptr<bool>`'s pointee. */
  class Flag {
    var value: bool

    constructor (v: bool)
      ensures value == v
    {
      value := v;
    }
  }

  /** A `shared_ptr` converted to `bool`: true exactly when it is not null. */
  predicate PointerIsSet(p: Flag?)
  {
    p != null
  }

  class IMU {
    var node: RotoTransNode
    var technical: Flag
    var anatomical: Flag

    /** `isTechnical`: the value behind the technical pointer. */
    function IsTechnical(): bool
      reads this, technical
    {
      technical.value
    }

    /** `isAnatomical`: the value behind the anatomical pointer. */
    function IsAnatomical(): bool
      reads this, anatomical
    {
      anatomical.value
    }

    /** An IMU at the default node, with its flags in new storage. */
    constructor (isTechnical: bool, isAnatomical: bool)
      ensures node == DefaultNode
      ensures fresh(technical) && fresh(anatomical) && technical != anatomical
      ensures IsTechnical() == isTechnical && IsAnatomical() == isAnatomical
    {
      node := DefaultNode;
      technical := new Flag(isTechnical);
      anatomical := new Flag(isAnatomical);
    }

    /** An IMU at the given node, with its flags in new storage. */
    constructor AtNode(rotoTrans: RotoTransNode, isTechnical: bool, isAnatomical: bool)
      ensures node == rotoTrans
      ensures fresh(technical) && fresh(anatomical) && technical != anatomical
      ensures IsTechnical() == isTechnical && IsAnatomical() == isAnatomical
    {
      node := rotoTrans;
      technical := new Flag(isTechnical);
      anatomical := new Flag(isAnatomical);
    }

    /** The implicit copy constructor: the copy shares both flags. */
    constructor ShareOf(other: IMU)
      ensures node == other.node
      ensures technical == other.technical && anatomical == other.anatomical
    {
      node := other.node;
      technical := other.technical;
      anatomical := other.anatomical;
    }

    /** `DeepCopy() const`: the same node and flag values, in new storage. */
    method DeepCopy() returns (copy: IMU)
      ensures fresh(copy) && fresh(copy.technical) && fresh(copy.anatomical)
      ensures copy.technical != copy.anatomical
      ensures copy.node == node
      ensures copy.IsTechnical() == IsTechnical() && copy.IsAnatomical() == IsAnatomical()
    {
      // the default constructor's flag values are overwritten below
      copy := new IMU(true, true);
      copy.node := node;
      copy.technical.value := technical.value;
      copy.anatomical.value := anatomical.value;
    }

    /**
     * `DeepCopy(other)` as written: each new flag is built from `other`'s
     * pointer rather than from the value it points to, so both become true.
     */
    method DeepCopyFrom(other: IMU)
      modifies this
      ensures node == old(other.node)
      ensures fresh(technical) && fresh(anatomical) && technical != anatomical
      ensures IsTechnical() && IsAnatomical()
      ensures old(technical).value == old(technical.value)
      ensures old(anatomical).value == old(anatomical.value)
      ensures other != this ==> other.IsTechnical() == old(other.IsTechnical())
      ensures other != this ==> other.IsAnatomical() == old(other.IsAnatomical())
    {
      node := other.node;
      technical := new Flag(PointerIsSet(other.technical));
      anatomical := new Flag(PointerIsSet(other.anatomical));
    }

    /** `DeepCopy(other)` as evidently intended: the new flags take `other`'s values. */
    method DeepCopyFromIntended(other: IMU)
      modifies this
      ensures node == old(other.node)
      ensures fresh(technical) && fresh(anatomical) && technical != anatomical
      ensures IsTechnical() == old(other.IsTechnical())
      ensures IsAnatomical() == old(other.IsAnatomical())
      ensures old(technical).value == old(technical.value)
      ensures old(anatomical).value == old(anatomical.value)
      ensures other != this ==> other.IsTechnical() == old(other.IsTechnical())
      ensures other != this ==> other.IsAnatomical() == old(other.IsAnatomical())
    {
      node := other.node;
      technical := new Flag(other.technical.value);
      anatomical := new Flag(other.anatomical.value);
    }
  }

  // ---------------------------------------------------------------------
  // What callers can rely on
  // ---------------------------------------------------------------------

  /**
   * A deep copy keeps its own flags when new values are written into the
   * original's flag storage; a shallow copy would see them.
   */
  method DeepCopyIsIndependent(t: bool, a: bool) returns (originalT: bool, originalA: bool, copiedT: bool, copiedA: bool)
    ensures originalT == !t && originalA == !a
    ensures copiedT == t && copiedA == a
  {
    var imu := new IMU(t, a);
    var copy := imu.DeepCopy();
    imu.technical.value := !t;
    imu.anatomical.value := !a;
    originalT, originalA := imu.IsTechnical(), imu.IsAnatomical();
    copiedT, copiedA := copy.IsTechnical(), copy.IsAnatomical();
  }

  /**
   * As written, `DeepCopy(other)` from an IMU tagged neither technical nor
   * anatomical yields one tagged both.
   */
  method DeepCopyFromCounterexample() returns (sourceT: bool, sourceA: bool, copiedT: bool, copiedA: bool)
    ensures !sourceT && !sourceA
    ensures copiedT && copiedA
  {
    var other := new IMU(false, false);
    var target := new IMU(false, false);
    target.DeepCopyFrom(other);
    sourceT, sourceA := other.IsTechnical(), other.IsAnatomical();
    copiedT, copiedA := target.IsTechnical(), target.IsAnatomical();
  }

  /** The intended `DeepCopy(other)` reproduces any pair of flags. */
  method DeepCopyFromIntendedCopiesFlags(t: bool, a: bool) returns (copiedT: bool, copiedA: bool)
    ensures copiedT == t && copiedA == a
  {
    var other := new IMU(t, a);
    var target := new IMU(!t, !a);
    target.DeepCopyFromIntended(other);
    copiedT, copiedA := target.IsTechnical(), target.IsAnatomical();
  }

  /**
   * `DeepCopy(other)` detaches the target from its shallow copies: they keep
   * the flags the target had before.
   */
  method DeepCopyFromDetachesSharers(t: bool, a: bool) returns (sharerT: bool, sharerA: bool, targetT: bool, targetA: bool)
    ensures sharerT == t && sharerA == a
    ensures targetT && targetA
  {
    var target := new IMU(t, a);
    var sharer := new IMU.ShareOf(target);
    var other := new IMU(false, false);
    target.DeepCopyFrom(other);
    sharerT, sharerA := sharer.IsTechnical(), sharer.IsAnatomical();
    targetT, targetA := target.IsTechnical(), target.IsAnatomical();
  }
}
