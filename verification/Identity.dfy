/** The grammars of managed identities and digests. */
module Identity {
  import opened Basics

  predicate IsSha256(s: string) { |s| == 64 && forall i :: 0 <= i < |s| ==> IsLowerHex(s[i]) }

  /** A Project, Run or input name. */
  predicate ValidId(s: string)
  {
    0 < |s| <= 128 && IsAlphanumeric(s[0]) && forall i :: 0 <= i < |s| ==> IsAlphanumeric(s[i]) || s[i] in "._-"
  }

  predicate ValidAttempt(s: string)
  {
    "attempt-" <= s && |s| >= 11 && forall i :: 8 <= i < |s| ==> IsDigit(s[i])
  }

  predicate IsControl(c: char) { (c as int) < 32 || 127 <= (c as int) < 160 }
}
