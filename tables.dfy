/**
 * The three static lookup tables of the feed: trust tiers, post types and comment types.
 * They are never mutated; each tag carries its metadata as member functions.
 */
module Tables {

  /** Trust tiers, in ascending order of their reputation threshold. */
  datatype TrustLevel = New | Verified | Trusted | Elite {

    function Label(): string {
      match this
      case New => "New"
      case Verified => "Verified"
      case Trusted => "Trusted"
      case Elite => "Elite"
    }

    function Color(): string {
      match this
      case New => "#94a3b8"
      case Verified => "#3b82f6"
      case Trusted => "#8b5cf6"
      case Elite => "#f59e0b"
    }

    /** The least reputation that earns this tier. */
    function Threshold(): int {
      match this
      case New => 0
      case Verified => 100
      case Trusted => 500
      case Elite => 1000
    }

    /** Position of the tier in the table (New lowest, Elite highest). */
    function Rank(): nat {
      match this
      case New => 0
      case Verified => 1
      case Trusted => 2
      case Elite => 3
    }
  }

  /** The closed enumeration of post type tags. */
  datatype PostType = Ask | Teach | Challenge | Opinion {

    function Label(): string {
      match this
      case Ask => "Ask"
      case Teach => "Teach"
      case Challenge => "Challenge"
      case Opinion => "Opinion"
    }

    function Icon(): string {
      match this
      case Ask => "\U{2753}"
      case Teach => "\U{1F4DA}"
      case Challenge => "\U{26A1}"
      case Opinion => "\U{1F4AD}"
    }

    function Color(): string {
      match this
      case Ask => "#3b82f6"
      case Teach => "#10b981"
      case Challenge => "#f59e0b"
      case Opinion => "#8b5cf6"
    }
  }

  /** The closed enumeration of comment type tags. */
  datatype CommentType = Explanation | Counter | Example {

    function Label(): string {
      match this
      case Explanation => "Explanation"
      case Counter => "Counter-argument"
      case Example => "Example"
    }

    function Icon(): string {
      match this
      case Explanation => "\U{1F4A1}"
      case Counter => "\U{1F504}"
      case Example => "\U{1F4CB}"
    }
  }
}
