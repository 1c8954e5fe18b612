/** How long a leader whose session died may go on acting. */
module LeaderClock {

  /** One session check of the leader loop: when it began, when it returned, what it said. */
  datatype Check = Check(begin: int, end: int, ok: bool)

  /**
   The leader loop with prompt scheduling. The flag is set at `won`, when the
   writable check of the campaign that began at `asked` has returned. Each check
   takes at most `ping`, the timer fires one `campaign` interval after winning
   and after each good check, and a check can only succeed if the session lived
   when it began: the session may die while the answer is on its way.
   */
  ghost predicate Prompt(checks: nat -> Check, asked: int, won: int, death: int, campaign: int, ping: int) {
    && asked <= won <= asked + ping && asked <= death
    && checks(0).begin == won + campaign
    && (forall k: nat :: checks(k).begin <= checks(k).end <= checks(k).begin + ping)
    && (forall k: nat :: checks(k).ok ==> checks(k).begin < death && checks(k + 1).begin == checks(k).end + campaign)
  }

  /** Good checks are at least a campaign interval apart. */
  lemma {:induction false} GoodChecksAdvance(checks: nat -> Check, asked: int, won: int, death: int, campaign: int,
                                             ping: int, k: nat)
    requires Prompt(checks, asked, won, death, campaign, ping) && campaign > 0
    requires forall j: nat :: j < k ==> checks(j).ok
    ensures checks(k).begin >= won + campaign + k * campaign
    decreases k
  {
    if k > 0 {
      GoodChecksAdvance(checks, asked, won, death, campaign, ping, k - 1);
      assert checks(k - 1).ok;
      assert checks(k - 1 + 1).begin == checks(k - 1).end + campaign;
      assert (k - 1) * campaign + campaign == k * campaign;
    }
  }

  /** The first failed check, which exists because a dead session fails every check that begins later. */
  lemma {:induction false} FirstFailure(checks: nat -> Check, asked: int, won: int, death: int, campaign: int,
                                        ping: int, k: nat)
    returns (f: nat)
    requires Prompt(checks, asked, won, death, campaign, ping) && campaign > 0
    requires forall j: nat :: j < k ==> checks(j).ok
    ensures !checks(f).ok && forall j: nat :: j < f ==> checks(j).ok
    decreases death - won - k
  {
    if !checks(k).ok {
      f := k;
    } else {
      GoodChecksAdvance(checks, asked, won, death, campaign, ping, k);
      assert k * campaign >= k;
      f := FirstFailure(checks, asked, won, death, campaign, ping, k + 1);
    }
  }

  /**
   A leader whose session dies, even before its flag is set, clears the flag
   within one campaign interval plus two ping timeouts.
   */
  lemma FlagClearsInTime(checks: nat -> Check, asked: int, won: int, death: int, campaign: int, ping: int)
    returns (f: nat)
    requires Prompt(checks, asked, won, death, campaign, ping) && campaign > 0
    ensures !checks(f).ok && forall j: nat :: j < f ==> checks(j).ok
    ensures checks(f).end <= death + campaign + 2 * ping
  {
    f := FirstFailure(checks, asked, won, death, campaign, ping, 0);
    if f > 0 {
      assert checks(f - 1).ok;
      assert checks(f - 1 + 1).begin == checks(f - 1).end + campaign;
    }
  }
}
