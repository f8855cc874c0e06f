/** Consent to a certificate error: a page is let through once, for the certificate that
    was shown, and only after the user has agreed to exactly that prompt. */
module Certificate {

  datatype Prompt = Prompt(url: string, pem: string, token: string)

  const NO_PROMPT := Prompt("", "", "")

  /** `webErrorStatus...`: the certificate errors a user may accept. */
  datatype Status = CommonNameWrong | Expired | Invalid | Other

  predicate Eligible(status: Status, pem: string) { pem != "" && status != Other }

  /** Everything that has happened, in order. An acceptance names the place of the consent
      it uses up, a consent the place of the prompt it answers. */
  datatype Event = Navigated(url: string)
                 | Cleared
                 | Unrelated
                 | Denied(url: string)
                 | Prompted(prompt: Prompt)
                 | Agreed(origin: nat)
                 | NotAgreed
                 | Accepted(url: string, pem: string, origin: nat)

  /** What leaves a prompt open: errors elsewhere and wrong answers. */
  predicate KeepsPrompt(e: Event) { e.Unrelated? || e.NotAgreed? }

  /** What leaves a consent for a URL in force: those, and navigations to the URL itself. */
  predicate KeepsConsent(e: Event, url: string) { KeepsPrompt(e) || e == Navigated(url) }

  ghost predicate PromptOpen(log: seq<Event>, q: nat, n: nat) {
    q < n <= |log| && log[q].Prompted? && forall j :: q < j < n ==> KeepsPrompt(log[j])
  }

  ghost predicate ConsentOpen(log: seq<Event>, p: nat, n: nat, url: string, pem: string) {
    && p < n <= |log| && log[p].Agreed? && log[p].origin < p
    && PromptOpen(log, log[p].origin, p)
    && log[log[p].origin].prompt.url == url && log[log[p].origin].prompt.pem == pem
    && forall j :: p < j < n ==> KeepsConsent(log[j], url)
  }

  /** Every acceptance uses a consent given before to a prompt for the same URL and the same
      certificate. Between prompt and consent nothing happened to the page, and between
      consent and acceptance there was no clearing, no other error of the page and no
      navigation elsewhere. */
  ghost predicate AcceptsOk(log: seq<Event>) {
    forall r :: 0 <= r < |log| && log[r].Accepted? ==> ConsentOpen(log, log[r].origin, r, log[r].url, log[r].pem)
  }

  /** One consent, one acceptance. */
  lemma AcceptedOnce(log: seq<Event>, q: nat, r: nat)
    requires AcceptsOk(log) && q < r < |log| && log[q].Accepted? && log[r].Accepted?
    ensures log[q].origin != log[r].origin
  {
    assert !KeepsConsent(log[q], log[r].url);
    assert ConsentOpen(log, log[q].origin, q, log[q].url, log[q].pem);
    assert ConsentOpen(log, log[r].origin, r, log[r].url, log[r].pem);
  }

  lemma PromptStays(log: seq<Event>, e: Event, q: nat, n: nat)
    requires PromptOpen(log, q, n)
    ensures PromptOpen(log + [e], q, n) && (n == |log| && KeepsPrompt(e) ==> PromptOpen(log + [e], q, n + 1))
  {
  }

  lemma ConsentStays(log: seq<Event>, e: Event, p: nat, n: nat, url: string, pem: string)
    requires ConsentOpen(log, p, n, url, pem)
    ensures ConsentOpen(log + [e], p, n, url, pem)
    ensures n == |log| && KeepsConsent(e, url) ==> ConsentOpen(log + [e], p, n + 1, url, pem)
  {
    PromptStays(log, e, log[p].origin, p);
  }

  lemma AcceptsStay(log: seq<Event>, e: Event)
    requires AcceptsOk(log) && (e.Accepted? ==> ConsentOpen(log, e.origin, |log|, e.url, e.pem))
    ensures AcceptsOk(log + [e])
  {
    hide ConsentOpen;
    var all := log + [e];
    forall r | 0 <= r < |all| && all[r].Accepted? ensures ConsentOpen(all, all[r].origin, r, all[r].url, all[r].pem) {
      if r < |log| {
        assert ConsentOpen(log, log[r].origin, r, log[r].url, log[r].pem);
        ConsentStays(log, e, log[r].origin, r, log[r].url, log[r].pem);
      } else {
        ConsentStays(log, e, e.origin, r, e.url, e.pem);
      }
    }
  }

  /** `certificateDecision`; normalize is `certificateURL`, which gives "" for anything but a
      plain https URL. */
  class Decision {
    const normalize: string -> string
    var current: string
    var pending: Prompt
    var grant: Prompt
    ghost var pendingAt: nat
    ghost var grantAt: nat
    ghost var log: seq<Event>

    ghost predicate PendingOk()
      reads this
    {
      pending != NO_PROMPT ==>
        && pending.url == current != "" && pending.pem != "" && pending.token != ""
        && PromptOpen(log, pendingAt, |log|) && log[pendingAt].prompt == pending
    }

    ghost predicate GrantOk()
      reads this
    {
      grant != NO_PROMPT ==>
        grant.url == current != "" && grant.pem != "" && ConsentOpen(log, grantAt, |log|, grant.url, grant.pem)
    }

    /** The prompt and the consent belong to the page that is current, and are never both
        there. */
    ghost predicate Valid()
      reads this
    {
      AcceptsOk(log) && PendingOk() && GrantOk() && (pending == NO_PROMPT || grant == NO_PROMPT)
    }

    constructor (normalize: string -> string)
      ensures Valid() && log == [] && pending == NO_PROMPT && grant == NO_PROMPT
    {
      this.normalize := normalize;
      current, pending, grant, pendingAt, grantAt, log := "", NO_PROMPT, NO_PROMPT, 0, 0, [];
    }

    /** `starting(raw)` */
    method Starting(raw: string)
      requires Valid()
      modifies this
      ensures Valid() && log == old(log) + [Navigated(normalize(raw))]
      ensures current == normalize(raw) && pending == NO_PROMPT
      ensures grant == if old(grant).url == current then old(grant) else NO_PROMPT
    {
      hide AcceptsOk, ConsentOpen, PromptOpen;
      ghost var e := Navigated(normalize(raw));
      AcceptsStay(log, e);
      if grant != NO_PROMPT {
        ConsentStays(log, e, grantAt, |log|, grant.url, grant.pem);
      }
      current := normalize(raw);
      pending := NO_PROMPT;
      if grant.url != current {
        grant := NO_PROMPT;
      }
      log := log + [e];
    }

    /** `clear()` */
    method Clear()
      requires Valid()
      modifies this
      ensures Valid() && log == old(log) + [Cleared] && pending == NO_PROMPT && grant == NO_PROMPT && current == ""
    {
      hide AcceptsOk, ConsentOpen, PromptOpen;
      AcceptsStay(log, Cleared);
      current, pending, grant := "", NO_PROMPT, NO_PROMPT;
      log := log + [Cleared];
    }

    /** `detected(raw, pem, status, token)`: true lets the page through. */
    method Detected(raw: string, pem: string, status: Status, token: string) returns (letThrough: bool)
      requires Valid()
      modifies this
      ensures Valid() && current == old(current)
      ensures var uri := normalize(raw);
              var mine := uri != "" && uri == current;
              && (letThrough <==> mine && Eligible(status, pem) && old(grant) != NO_PROMPT && old(grant).pem == pem)
              && (!mine ==> pending == old(pending) && grant == old(grant) && log == old(log) + [Unrelated])
              && (mine ==> grant == NO_PROMPT)
              && (letThrough ==> log == old(log) + [Accepted(uri, pem, old(grantAt))] && pending == NO_PROMPT)
              && (mine && !letThrough ==>
                    pending == (if Eligible(status, pem) && token != "" then Prompt(uri, pem, token) else NO_PROMPT)
                    && log == old(log) + [if pending == NO_PROMPT then Denied(uri) else Prompted(pending)])
    {
      hide AcceptsOk, ConsentOpen, PromptOpen;
      var uri := normalize(raw);
      if uri == "" || uri != current {
        AcceptsStay(log, Unrelated);
        Untouched(Unrelated);
        log := log + [Unrelated];
        return false;
      }
      pending := NO_PROMPT;
      if pem == "" || (status != CommonNameWrong && status != Expired && status != Invalid) {
        AcceptsStay(log, Denied(uri));
        grant := NO_PROMPT;
        log := log + [Denied(uri)];
        return false;
      }
      if grant.url == uri && grant.pem == pem {
        AcceptsStay(log, Accepted(uri, pem, grantAt));
        log := log + [Accepted(uri, pem, grantAt)];
        grant := NO_PROMPT;
        return true;
      }
      grant := NO_PROMPT;
      if token != "" {
        pending := Prompt(uri, pem, token);
        AcceptsStay(log, Prompted(pending));
        pendingAt := |log|;
        log := log + [Prompted(pending)];
        NewPrompt(log, pendingAt);
      } else {
        AcceptsStay(log, Denied(uri));
        log := log + [Denied(uri)];
      }
      return false;
    }

    /** What an event that touches neither leaves of prompt and consent. */
    lemma Untouched(e: Event)
      requires Valid() && KeepsPrompt(e)
      ensures pending != NO_PROMPT ==> PromptOpen(log + [e], pendingAt, |log| + 1) && (log + [e])[pendingAt] == log[pendingAt]
      ensures grant != NO_PROMPT ==> ConsentOpen(log + [e], grantAt, |log| + 1, grant.url, grant.pem)
    {
      if pending != NO_PROMPT {
        PromptStays(log, e, pendingAt, |log|);
      }
      if grant != NO_PROMPT {
        ConsentStays(log, e, grantAt, |log|, grant.url, grant.pem);
      }
    }

    /** `proceed(token)`: the URL to go to when the token is that of the open prompt. */
    method Proceed(token: string) returns (url: string, ok: bool)
      requires Valid()
      modifies this
      ensures Valid() && current == old(current)
      ensures ok <==> old(pending) != NO_PROMPT && token == old(pending).token
      ensures ok ==> url == current == grant.url && grant == old(pending) && pending == NO_PROMPT
                     && log == old(log) + [Agreed(old(pendingAt))] && grantAt == |old(log)|
      ensures !ok ==> url == "" && pending == old(pending) && grant == old(grant) && log == old(log) + [NotAgreed]
    {
      hide AcceptsOk, ConsentOpen, PromptOpen;
      if token == "" || token != pending.token || pending.url != current {
        AcceptsStay(log, NotAgreed);
        Untouched(NotAgreed);
        log := log + [NotAgreed];
        return "", false;
      }
      ghost var e := Agreed(pendingAt);
      AcceptsStay(log, e);
      NewConsent(log, pendingAt);
      grantAt := |log|;
      log := log + [e];
      grant := pending;
      pending := NO_PROMPT;
      return grant.url, true;
    }
  }

  lemma NewPrompt(log: seq<Event>, q: nat)
    requires q == |log| - 1 && log[q].Prompted?
    ensures PromptOpen(log, q, |log|)
  {
  }

  lemma NewConsent(log: seq<Event>, q: nat)
    requires PromptOpen(log, q, |log|)
    ensures var p := log[q].prompt; ConsentOpen(log + [Agreed(q)], |log|, |log| + 1, p.url, p.pem)
  {
    PromptStays(log, Agreed(q), q, |log|);
  }
}
