// Who gets in: registrations and codes in both stores, with their limits and conditions
// written out.
module Admission {
  import opened Grants
  import P = PostgresGrants

  // Something other than spaces.
  predicate Filled(s: string) {
    exists i :: 0 <= i < |s| && s[i] != ' '
  }

  lemma FilledExactly(s: string)
    ensures Filled(s) <==> !P.Blank(s)
  {
  }

  // In memory, a registration is refused exactly at fifty clients, a metadata document only
  // if its client is new.
  lemma {:induction false} AdmittedInMemory(s: Store, id: string, redirects: seq<string>, now: Time)
    ensures RegisterClient(s, id, redirects, now)
         == if |s.clients| < 50
            then Outcome(s.(clients := s.clients[id := Client(redirects, false, false, now, None)]), Done)
            else Outcome(s, CapReached)
    ensures RegisterCimdClient(s, id, redirects, now)
         == if |s.clients| < 50 || id in s.clients
            then Outcome(s.(clients := s.clients[id := Client(redirects, true, false, now, None)]), Done)
            else Outcome(s, CapReached)
  {
  }

  // In the database the cap counts what an eviction leaves, the id must not be blank and
  // there must be a redirect; a registration also needs a new id. Refused, it changes nothing.
  lemma {:induction false} AdmittedToRows(db: P.Tables, id: string, redirects: seq<string>, now: Time)
    ensures var left := P.EvictExpired(db, now);
            P.RegisterClient(db, id, redirects, now)
            == if |left.clients| >= 50 then P.Result(db, CapReached)
               else if id !in left.clients && Filled(id) && redirects != []
               then P.Result(left.(clients := left.clients[id := P.ClientRow(redirects, false, false, now)]), Done)
               else P.Result(db, Failed)
    ensures var left := P.EvictExpired(db, now);
            P.RegisterCimdClient(db, id, redirects, now)
            == if |left.clients| >= 50 && id !in left.clients then P.Result(db, CapReached)
               else if !Filled(id) || redirects == [] then P.Result(db, Failed)
               else
                 var kept := id in left.clients && left.clients[id].isStatic;
                 P.Result(left.(clients := left.clients[id := P.ClientRow(redirects, true, kept, now)]), Done)
  {
    FilledExactly(id);
    hide P.EvictExpired;
  }

  // A code is created exactly for a registered client, with a challenge of method S256 and
  // a person whose provider and subject are not blank, under a hash that is new. Then it
  // is stored for ten minutes, the client is touched, and nothing else but the person's
  // profile changes; refused, it changes nothing.
  lemma {:induction false} CodeAdmittedToRows(db: P.Tables, email: Option<string>, code: string, client: string,
                                              redirect: string, challenge: string, challengeMethod: string,
                                              scope: seq<string>, principal: Principal, now: Time)
    ensures var r := P.CreateCode(db, email, code, client, redirect, challenge, challengeMethod, scope, principal, now);
            if client in db.clients && code !in db.codes && challenge != "" && challengeMethod == "S256"
               && Filled(principal.provider) && Filled(principal.subject)
            then
              && r.reply == Done
              && r.db == db.(identities := r.db.identities,
                             codes := db.codes[code := P.CodeRow(P.Identity(principal.provider, principal.subject),
                                                                 client, redirect, challenge, scope,
                                                                 now + 600 * 1_000_000_000)],
                             clients := db.clients[client := db.clients[client].(lastActivity := now)])
              && forall i :: i != P.Identity(principal.provider, principal.subject) ==>
                   (i in r.db.identities <==> i in db.identities)
                   && (i in db.identities ==> r.db.identities[i] == db.identities[i])
            else r == P.Result(db, Failed)
  {
    FilledExactly(principal.provider);
    FilledExactly(principal.subject);
    hide P.Blank;
  }
}
