/** The threat badge of the statistics grid (components/stats-grid.tsx):
    a level derived from the suspicious count and the badge variant it is
    shown with. */
module StatsGrid {

  datatype Threat = Low | Medium | High

  /** `threatLevel`: Low when no network is suspicious, Medium for up to two,
      High beyond that; the count is a JavaScript number. */
  function ThreatLevel(suspiciousCount: real): (t: Threat)
    ensures t == Low <==> suspiciousCount == 0.0
  {
    if suspiciousCount == 0.0 then Low
    else if suspiciousCount <= 2.0 then Medium
    else High
  }

  /** Each level characterised on its own. */
  lemma ThreatLevelCases(c: real)
    ensures ThreatLevel(c) == Low <==> c == 0.0
    ensures ThreatLevel(c) == Medium <==> c != 0.0 && c <= 2.0
    ensures ThreatLevel(c) == High <==> c > 2.0
  {
  }

  /** On the counts the service sends: none is Low, one or two Medium, more High. */
  lemma ThreatLevelOfCount(n: nat)
    ensures ThreatLevel(n as real) == (if n == 0 then Low else if n <= 2 then Medium else High)
  {
  }

  function Rank(t: Threat): nat {
    match t
    case Low => 0
    case Medium => 1
    case High => 2
  }

  /** More suspicious networks never lower the threat level. */
  lemma ThreatLevelMonotone(a: nat, b: nat)
    requires a <= b
    ensures Rank(ThreatLevel(a as real)) <= Rank(ThreatLevel(b as real))
  {
  }

  datatype BadgeVariant = Secondary | Default | DestructiveBadge

  /** `threatColor`. */
  function ThreatColor(t: Threat): (b: BadgeVariant)
    ensures b == DestructiveBadge <==> t == High
  {
    match t
    case Low => Secondary
    case Medium => Default
    case High => DestructiveBadge
  }

  /** Different levels are shown with different badges. */
  lemma ThreatColorInjective(s: Threat, t: Threat)
    ensures ThreatColor(s) == ThreatColor(t) <==> s == t
  {
  }
}
