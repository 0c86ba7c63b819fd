/** What the steps of a preparation cost, counter by counter, and the exact total of a
    complete one. */
module PreparationCosts {
  import opened WireBytes

  /** The fourteen counters, in their order. */
  datatype Counter = Directories | Files | SecurityReads | OsCalls | RootCreates | SecuritySets | EvidenceCreates
                   | HandlesAcquired | HandlesClosed | HashReads | HashBytes | EvidenceWrites | EvidenceFlushes
                   | EvidenceBytes

  datatype Step = IdentityStep | ParentStep | ArtifactStep | CreateStep | RootStep | OpenStep | EvidenceStep | CloseStep

  const ARTIFACT_BYTES := 16 * 1024 * 1024
  const RECORD_BYTES := 8192

  /** An amount for every counter. */
  type Counts = Counter -> nat

  function If(c: bool, n: nat): nat { if c then n else 0 }

  /** The upper bound one step reserves, with e parents of the evidence directory. */
  function Cost(s: Step, e: nat, c: Counter): nat {
    match s
    case IdentityStep => If(c.OsCalls?, 128) + If(c.HandlesAcquired? || c.HandlesClosed?, 2)
    case ParentStep => If(c.Directories? || c.SecurityReads?, 1) + If(c.OsCalls?, 32)
    case ArtifactStep =>
      If(c.Directories?, 16) + If(c.Files?, 3) + If(c.SecurityReads?, 20) + If(c.OsCalls?, 1024) + If(c.HashReads?, 256)
      + If(c.HashBytes?, ARTIFACT_BYTES)
    case CreateStep => If(c.OsCalls?, 32) + If(c.RootCreates? || c.SecuritySets? || c.HandlesAcquired?, 1)
    case RootStep => If(c.Directories? || c.SecurityReads?, 2) + If(c.OsCalls?, 64)
    case OpenStep =>
      If(c.Directories?, 2 * e + 2) + If(c.Files?, 1) + If(c.SecurityReads?, 2 * e + 4) + If(c.OsCalls?, 2048)
      + If(c.SecuritySets? || c.EvidenceCreates? || c.HandlesAcquired?, 1)
    case EvidenceStep =>
      If(c.Directories?, 2 * e + 3) + If(c.Files?, 3) + If(c.SecurityReads?, 2 * e + 6) + If(c.OsCalls?, 2048)
      + If(c.EvidenceWrites? || c.EvidenceFlushes?, 1) + If(c.EvidenceBytes?, RECORD_BYTES)
    case CloseStep => If(c.OsCalls? || c.HandlesClosed?, 1)
  }

  /** How often each step was reserved. */
  datatype Uses = Uses(identity: nat, parent: nat, artifact: nat, create: nat, root: nat, open: nat, evidence: nat,
      close: nat)

  const NO_USES := Uses(0, 0, 0, 0, 0, 0, 0, 0)

  function Bump(u: Uses, s: Step): Uses {
    match s
    case IdentityStep => u.(identity := u.identity + 1)
    case ParentStep => u.(parent := u.parent + 1)
    case ArtifactStep => u.(artifact := u.artifact + 1)
    case CreateStep => u.(create := u.create + 1)
    case RootStep => u.(root := u.root + 1)
    case OpenStep => u.(open := u.open + 1)
    case EvidenceStep => u.(evidence := u.evidence + 1)
    case CloseStep => u.(close := u.close + 1)
  }

  function Times(n: nat, cost: nat): nat { n * cost }

  function Spent(u: Uses, e: nat, c: Counter): nat {
    Times(u.identity, Cost(IdentityStep, e, c)) + Times(u.parent, Cost(ParentStep, e, c))
    + Times(u.artifact, Cost(ArtifactStep, e, c))
    + Times(u.create, Cost(CreateStep, e, c)) + Times(u.root, Cost(RootStep, e, c))
    + Times(u.open, Cost(OpenStep, e, c))
    + Times(u.evidence, Cost(EvidenceStep, e, c)) + Times(u.close, Cost(CloseStep, e, c))
  }

  /** A complete preparation with h parents and a artifacts: every parent is looked at four
      times, the root twice, two records are kept and two handles closed. */
  function Complete(h: nat, a: nat): Uses {
    Uses(1, 4 * h, a, 1, 2, 1, 2, 2)
  }

  const MAX_PARENTS := 16
  const MAX_PINS := 64

  /** The ceiling, as the code adds it up. */
  function Ceiling(h: nat, a: nat, e: nat, c: Counter): nat {
    if h == 0 || h > MAX_PARENTS || a == 0 || a > MAX_PINS || e == 0 || e > MAX_PARENTS then 0
    else
      Cost(IdentityStep, e, c) + Cost(CreateStep, e, c) + Cost(OpenStep, e, c)
      + Cost(ParentStep, 0, c) * (4 * h) + Cost(ArtifactStep, 0, c) * a + Cost(RootStep, 0, c) * 2
      + Cost(EvidenceStep, e, c) * 2 + Cost(CloseStep, 0, c) * 2
  }

  lemma TimesMore(n: nat, cost: nat)
    ensures Times(n + 1, cost) == Times(n, cost) + cost
  {
  }

  lemma {:induction false} TimesMonotone(n: nat, m: nat, cost: nat)
    requires n <= m
    ensures Times(n, cost) <= Times(m, cost)
  {
    if n < m {
      TimesMonotone(n, m - 1, cost);
      TimesMore(m - 1, cost);
    }
  }

  /** One more step adds its cost. */
  lemma SpentMore(u: Uses, s: Step, e: nat, c: Counter)
    ensures Spent(Bump(u, s), e, c) == Spent(u, e, c) + Cost(s, e, c)
  {
    hide Times, Cost;
    TimesMore(u.identity, Cost(IdentityStep, e, c));
    TimesMore(u.parent, Cost(ParentStep, e, c));
    TimesMore(u.artifact, Cost(ArtifactStep, e, c));
    TimesMore(u.create, Cost(CreateStep, e, c));
    TimesMore(u.root, Cost(RootStep, e, c));
    TimesMore(u.open, Cost(OpenStep, e, c));
    TimesMore(u.evidence, Cost(EvidenceStep, e, c));
    TimesMore(u.close, Cost(CloseStep, e, c));
  }

  predicate Within(u: Uses, v: Uses) {
    && u.identity <= v.identity && u.parent <= v.parent && u.artifact <= v.artifact && u.create <= v.create
    && u.root <= v.root && u.open <= v.open && u.evidence <= v.evidence && u.close <= v.close
  }

  lemma SpentMonotone(u: Uses, v: Uses, e: nat, c: Counter)
    requires Within(u, v)
    ensures Spent(u, e, c) <= Spent(v, e, c)
  {
    hide Times, Cost;
    TimesMonotone(u.identity, v.identity, Cost(IdentityStep, e, c));
    TimesMonotone(u.parent, v.parent, Cost(ParentStep, e, c));
    TimesMonotone(u.artifact, v.artifact, Cost(ArtifactStep, e, c));
    TimesMonotone(u.create, v.create, Cost(CreateStep, e, c));
    TimesMonotone(u.root, v.root, Cost(RootStep, e, c));
    TimesMonotone(u.open, v.open, Cost(OpenStep, e, c));
    TimesMonotone(u.evidence, v.evidence, Cost(EvidenceStep, e, c));
    TimesMonotone(u.close, v.close, Cost(CloseStep, e, c));
  }

  /** The ceiling is what a complete preparation spends. */
  lemma CeilingIsExact(h: nat, a: nat, e: nat, c: Counter)
    requires 0 < h <= MAX_PARENTS && 0 < a <= MAX_PINS && 0 < e <= MAX_PARENTS
    ensures Ceiling(h, a, e, c) == Spent(Complete(h, a), e, c)
  {
    hide Cost, Times;
    OnlyFourDepend(e, c);
    Commutes(Cost(ParentStep, e, c), 4 * h);
    Commutes(Cost(ArtifactStep, e, c), a);
    Few(Cost(IdentityStep, e, c));
    Few(Cost(CreateStep, e, c));
    Few(Cost(RootStep, e, c));
    Few(Cost(OpenStep, e, c));
    Few(Cost(EvidenceStep, e, c));
    Few(Cost(CloseStep, e, c));
  }

  /** The fourteen totals, for h parents, a artifacts and e parents of the evidence
      directory. */
  lemma CeilingIs(h: nat, a: nat, e: nat, c: Counter)
    requires 0 < h <= 16 && 0 < a <= 64 && 0 < e <= 16
    ensures Ceiling(h, a, e, c)
         == match c
            case Directories => 4 * h + 16 * a + 6 * e + 12
            case Files => 3 * a + 7
            case SecurityReads => 4 * h + 20 * a + 6 * e + 20
            case OsCalls => 128 * h + 1024 * a + 6434
            case RootCreates => 1
            case SecuritySets => 2
            case EvidenceCreates => 1
            case HandlesAcquired => 4
            case HandlesClosed => 4
            case HashReads => 256 * a
            case HashBytes => 16777216 * a
            case EvidenceWrites => 2
            case EvidenceFlushes => 2
            case EvidenceBytes => 16384
  {
    Charged(h, a, e, c);
  }

  lemma Charged(h: nat, a: nat, e: nat, c: Counter)
    ensures Cost(ParentStep, 0, c) * (4 * h)
         == if c.Directories? || c.SecurityReads? then 4 * h else if c.OsCalls? then 128 * h else 0
    ensures Cost(ArtifactStep, 0, c) * a
         == match c
            case Directories => 16 * a
            case Files => 3 * a
            case SecurityReads => 20 * a
            case OsCalls => 1024 * a
            case HashReads => 256 * a
            case HashBytes => 16777216 * a
            case _ => 0
  {
  }

  /** These steps cost the same whatever the number of evidence parents. */
  lemma OnlyFourDepend(e: nat, c: Counter)
    ensures Cost(ParentStep, 0, c) == Cost(ParentStep, e, c) && Cost(ArtifactStep, 0, c) == Cost(ArtifactStep, e, c)
    ensures Cost(RootStep, 0, c) == Cost(RootStep, e, c) && Cost(CloseStep, 0, c) == Cost(CloseStep, e, c)
  {
  }

  lemma Few(x: nat)
    ensures Times(1, x) == x && Times(2, x) == x * 2
  {
  }

  lemma Commutes(x: nat, y: nat)
    ensures x * y == Times(y, x)
  {
  }

  lemma OneIsPositive(e: nat, c: Counter)
    requires 0 < e
    ensures 0 < Spent(Complete(1, 1), e, c)
  {
  }

  lemma MostIsSmall(e: nat, c: Counter)
    requires e <= MAX_PARENTS
    ensures Spent(Complete(16, 64), e, c) < 0x1_0000_0000_0000_0000
  {
  }

  /** Every counter is used and none overflows 64 bits. */
  lemma CeilingIsPositive(h: nat, a: nat, e: nat, c: Counter)
    requires 0 < h <= MAX_PARENTS && 0 < a <= MAX_PINS && 0 < e <= MAX_PARENTS
    ensures 0 < Ceiling(h, a, e, c) < 0x1_0000_0000_0000_0000
  {
    hide Spent, Ceiling;
    CeilingIsExact(h, a, e, c);
    OneIsPositive(e, c);
    MostIsSmall(e, c);
    SpentMonotone(Complete(1, 1), Complete(h, a), e, c);
    SpentMonotone(Complete(h, a), Complete(16, 64), e, c);
  }
}
