/** `handleSubscribe` of src/App.jsx: the opt-in is simulated on the
    client, and the only logic is the e-mail test. */
module Newsletter {
  import opened Text

  datatype NewsletterState = NewsletterState(email: string, subscribed: bool)

  /** `email && email.includes('@')`. */
  predicate AcceptsEmail(email: string) {
    |email| > 0 && Contains(email, "@")
  }

  /** The test amounts to: some character of the address is '@'. */
  lemma AcceptsEmailIffAt(email: string)
    ensures AcceptsEmail(email) <==> '@' in email
  {
    if '@' in email {
      var i :| 0 <= i < |email| && email[i] == '@';
      assert email[i..i + 1] == "@";
      assert OccursAt(email, "@", i);
    }
    if AcceptsEmail(email) {
      var i :| 0 <= i <= |email| && OccursAt(email, "@", i);
      assert email[i] == email[i..i + 1][0];
    }
  }

  /** Sets `subscribed` for an address with an '@'; otherwise nothing
      changes. The e-mail text itself is never altered here. */
  function Subscribe(s: NewsletterState): (r: NewsletterState)
    ensures r.email == s.email
    ensures r.subscribed == (s.subscribed || '@' in s.email)
    ensures '@' !in s.email ==> r == s
  {
    AcceptsEmailIffAt(s.email);
    if AcceptsEmail(s.email) then s.(subscribed := true) else s
  }
}
