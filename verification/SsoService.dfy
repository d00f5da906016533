/** SsoLoginService as an object over the cache (src/modules/sso/services/sso-login.service.ts). */
module SsoServices {
  import opened Wrappers
  import opened Cache
  import opened Sso

  class SsoLoginService {
    const lifetimes: Lifetimes
    const cache: CacheService<Mark>

    constructor (l: Lifetimes, service: CacheService<Mark>)
      ensures lifetimes == l && cache == service
    {
      lifetimes, cache := l, service;
    }

    method BeginSpInitiatedLogin(organizationSlug: string, relayState: string, up: bool, now: Time)
      modifies cache
      ensures cache.store == Begin(lifetimes, old(cache.store), organizationSlug, relayState, up, now)
    {
      var _ := cache.Set(RelayKey(relayState), RelayMark(organizationSlug), TtlSeconds(lifetimes.relayMs), up, now);
    }

    method HandleAssertion(c: Call) returns (outcome: Result<Login, Error>)
      modifies cache
      ensures (cache.store, outcome) == Sso.HandleAssertion(lifetimes, old(cache.store), c)
    {
      if c.allowIdpInitiated.None? {
        return Err(NotConfigured);
      }
      var isIdpInitiated := true;
      if c.relayState != "" {
        var known := cache.Exists(RelayKey(c.relayState), c.reach.relayExists, c.now);
        isIdpInitiated := !known;
      }
      if isIdpInitiated && !c.allowIdpInitiated.value {
        return Err(IdpInitiatedDisabled);
      }
      if c.relayState != "" {
        cache.Delete(RelayKey(c.relayState), c.reach.relayDelete);
      }
      if c.response.None? {
        return Err(InvalidAssertion);
      }
      var assertion := c.response.value;
      var guard := GuardReplay(assertion.id, c.reach, c.now);
      if guard.Err? {
        return Err(ReplayDetected);
      }
      if !assertion.hasEmail {
        return Err(EmailMissing);
      }
      if !assertion.provisioned {
        return Err(ProvisioningFailed);
      }
      return Ok(Login(isIdpInitiated));
    }

    method GuardReplay(assertionId: string, reach: Reach, now: Time) returns (outcome: Result<(), Error>)
      modifies cache
      ensures (cache.store, outcome) == Sso.GuardReplay(lifetimes, old(cache.store), assertionId, reach, now)
    {
      if assertionId == "" {
        return Ok(());
      }
      var seen := cache.Exists(ReplayKey(assertionId), reach.replayExists, now);
      if seen {
        return Err(ReplayDetected);
      }
      var _ := cache.Set(ReplayKey(assertionId), SeenMark(now), TtlSeconds(lifetimes.replayMs), reach.replaySet, now);
      return Ok(());
    }
  }
}
