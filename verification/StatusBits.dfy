/** The status word: five mutually exclusive activity bits and two independent flags. */
module StatusBits {
  const IDLE: bv32 := 1
  const ERROR: bv32 := 2
  const IN_PROGRESS: bv32 := 8
  const INPUT_NEEDED: bv32 := 24
  const IS_READ: bv32 := 32
  const IS_ARCHIVED: bv32 := 64
  const ACTIVITY_MASK: bv32 := 31

  function WithActivity(status: bv32, activity: bv32): bv32 {
    (status & !ACTIVITY_MASK) | activity
  }

  function Unread(status: bv32): bv32 {
    status & !IS_READ
  }

  function Activity(status: bv32): bv32 {
    status & ACTIVITY_MASK
  }

  predicate IsRead(status: bv32) {
    status & IS_READ != 0
  }

  predicate IsArchived(status: bv32) {
    status & IS_ARCHIVED != 0
  }

  predicate IsActivity(a: bv32) {
    a == IDLE || a == ERROR || a == IN_PROGRESS || a == INPUT_NEEDED
  }

  lemma MaskedBits(status: bv32, activity: bv32)
    requires activity & 31 == activity
    ensures ((status & !31) | activity) & 31 == activity
    ensures ((status & !31) | activity) & 32 == status & 32
    ensures ((status & !31) | activity) & 64 == status & 64
  {
  }

  lemma ActivityFits(activity: bv32)
    requires IsActivity(activity)
    ensures activity & 31 == activity
  {
  }

  lemma FittingBits(status: bv32, activity: bv32)
    requires activity & 31 == activity
    ensures Activity(WithActivity(status, activity)) == activity
    ensures WithActivity(status, activity) & IS_READ == status & IS_READ
    ensures WithActivity(status, activity) & IS_ARCHIVED == status & IS_ARCHIVED
  {
    MaskedBits(status, activity);
  }

  /** Setting the activity sets the activity and nothing else. */
  lemma WithActivityBits(status: bv32, activity: bv32)
    requires IsActivity(activity)
    ensures Activity(WithActivity(status, activity)) == activity
    ensures IsRead(WithActivity(status, activity)) == IsRead(status)
    ensures IsArchived(WithActivity(status, activity)) == IsArchived(status)
  {
    ActivityFits(activity);
    FittingBits(status, activity);
  }

  lemma UnreadBits(status: bv32)
    ensures Activity(Unread(status)) == Activity(status)
    ensures !IsRead(Unread(status)) && IsArchived(Unread(status)) == IsArchived(status)
  {
  }

  lemma ActivitiesDiffer()
    ensures IDLE != ERROR && IDLE != IN_PROGRESS && IDLE != INPUT_NEEDED
    ensures ERROR != IN_PROGRESS && ERROR != INPUT_NEEDED && IN_PROGRESS != INPUT_NEEDED
  {
  }
}
