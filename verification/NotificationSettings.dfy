/** The notification settings: optimistic locking by entity tag, and replay by idempotency key. */
module NotificationSettings {
  import opened Wrappers

  function Digit(n: nat): char
    requires n < 10
  {
    "0123456789"[n]
  }

  function Decimal(n: nat): string {
    if n < 10 then [Digit(n)] else Decimal(n / 10) + [Digit(n % 10)]
  }

  function ETag(version: nat): string { "\"notification-settings-v" + Decimal(version) + "\"" }

  lemma {:induction false} DecimalInjective(m: nat, n: nat)
    requires Decimal(m) == Decimal(n)
    ensures m == n
  {
    var a, b := Decimal(m), Decimal(n);
    assert a[|a| - 1] == Digit(m % 10) && b[|b| - 1] == Digit(n % 10);
    DigitInjective(m % 10, n % 10);
    DecimalNotEmpty(m / 10);
    DecimalNotEmpty(n / 10);
    if m >= 10 && n >= 10 {
      assert a[..|a| - 1] == Decimal(m / 10) && b[..|b| - 1] == Decimal(n / 10);
      DecimalInjective(m / 10, n / 10);
    }
  }

  lemma DecimalNotEmpty(n: nat)
    ensures |Decimal(n)| >= 1
  {
  }

  lemma DigitInjective(m: nat, n: nat)
    requires m < 10 && n < 10 && Digit(m) == Digit(n)
    ensures m == n
  {
  }

  /** What a string of decimal digits says. */
  function ReadDecimal(s: string): nat {
    if s == "" || !('0' <= s[|s| - 1] <= '9') then 0
    else 10 * ReadDecimal(s[..|s| - 1]) + (s[|s| - 1] as int - '0' as int)
  }

  /** The tag spells the version in decimal digits. */
  lemma {:induction false} ETagSpells(n: nat)
    ensures ReadDecimal(Decimal(n)) == n
    ensures ETag(n) == "\"notification-settings-v" + Decimal(n) + "\""
  {
    if n >= 10 {
      ETagSpells(n / 10);
      assert Decimal(n)[..|Decimal(n)| - 1] == Decimal(n / 10);
    }
  }

  /** A tag names one version. */
  lemma ETagInjective(m: nat, n: nat)
    requires ETag(m) == ETag(n)
    ensures m == n
  {
    var prefix := "\"notification-settings-v";
    assert ETag(m)[|prefix|..|ETag(m)| - 1] == Decimal(m);
    assert ETag(n)[|prefix|..|ETag(n)| - 1] == Decimal(n);
    DecimalInjective(m, n);
  }

  datatype Settings = Settings(enabled: bool, updatedAt: int, version: nat)

  datatype SettingsError = UsedForAnotherRequest | WebhookMissing | VersionConflict

  datatype Stored = Stored(enabled: bool, ifMatch: string, response: Settings)

  /** Each stored update moved the settings from the version its tag names to the next. */
  ghost predicate Moved(row: Stored, version: nat) {
    && 2 <= row.response.version <= version && row.response.enabled == row.enabled
    && row.ifMatch == ETag(row.response.version - 1)
  }

  /** The versions from 2 on are the updates, one each. */
  ghost predicate History(rows: map<(string, string), Stored>, version: nat) {
    && version == |rows| + 1
    && (forall k <- rows :: Moved(rows[k], version))
    && (forall k, l | k in rows && l in rows && k != l :: rows[k].response.version != rows[l].response.version)
  }

  /** The update that the tag of the current version admits. */
  lemma UpdateGrows(
      rows: map<(string, string), Stored>, version: nat, key: (string, string), enabled: bool, ifMatch: string, now: int)
    requires History(rows, version) && key !in rows && ifMatch == ETag(version)
    ensures History(rows[key := Stored(enabled, ifMatch, Settings(enabled, now, version + 1))], version + 1)
  {
    hide ETag;
  }

  class NotificationSettings {
    const webhookConfigured: bool
    var current: Settings
    /** The completed idempotency rows of this operation, by owner and key. */
    var rows: map<(string, string), Stored>
    /** The responses that updates were audited with. */
    var audits: seq<Settings>

    ghost predicate Valid()
      reads this
    {
      History(rows, current.version)
    }

    constructor (webhookConfigured: bool)
      ensures Valid() && current == Settings(false, 0, 1) && rows == map[] && audits == []
      ensures this.webhookConfigured == webhookConfigured
    {
      this.webhookConfigured := webhookConfigured;
      current, rows, audits := Settings(false, 0, 1), map[], [];
    }

    /** Replays a stored answer, refuses, or makes the one update that the tag's version admits. */
    method Update(owner: string, enabled: bool, ifMatch: string, idempotencyKey: string, now: int)
      returns (answer: Result<Settings, SettingsError>)
      requires Valid()
      modifies this`current, this`rows, this`audits
      ensures Valid()
      ensures (owner, idempotencyKey) in old(rows) ==>
                && current == old(current) && rows == old(rows) && audits == old(audits)
                && var row := old(rows)[(owner, idempotencyKey)];
                   answer == if row.enabled == enabled && row.ifMatch == ifMatch then Ok(row.response)
                             else Err(UsedForAnotherRequest)
      ensures (owner, idempotencyKey) !in old(rows) ==>
                && (answer.Ok? <==> (enabled ==> webhookConfigured) && ifMatch == ETag(old(current).version))
                && (answer == Err(WebhookMissing) <==> enabled && !webhookConfigured)
                && (answer == Err(VersionConflict)
                    <==> (enabled ==> webhookConfigured) && ifMatch != ETag(old(current).version))
                && (answer.Err? ==> current == old(current) && rows == old(rows) && audits == old(audits))
                && (answer.Ok? ==>
                      && current == Settings(enabled, now, old(current).version + 1) && answer.value == current
                      && audits == old(audits) + [current]
                      && rows == old(rows)[(owner, idempotencyKey) := Stored(enabled, ifMatch, current)])
    {
      hide ETag, History;
      var key := (owner, idempotencyKey);
      if key in rows {
        if rows[key].enabled != enabled || rows[key].ifMatch != ifMatch {
          return Err(UsedForAnotherRequest);
        }
        return Ok(rows[key].response);
      }
      if enabled && !webhookConfigured {
        return Err(WebhookMissing);
      }
      if ifMatch != ETag(current.version) {
        return Err(VersionConflict);
      }
      UpdateGrows(rows, current.version, key, enabled, ifMatch, now);
      current := Settings(enabled, now, current.version + 1);
      rows := rows[key := Stored(enabled, ifMatch, current)];
      audits := audits + [current];
      return Ok(current);
    }
  }

  /** No lost update: two different updates of one history never carried the same tag. */
  lemma OneUpdatePerTag(a: Stored, b: Stored, version: nat)
    requires Moved(a, version) && Moved(b, version) && a.response.version != b.response.version
    ensures a.ifMatch != b.ifMatch
  {
    if a.ifMatch == b.ifMatch { ETagInjective(a.response.version - 1, b.response.version - 1); }
  }
}
