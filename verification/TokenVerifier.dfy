// The bearer-token check of the OAuth server: a lookup, the policy, then a renewal,
// as two separate calls on the store, over either store.
module TokenVerifiers {
  import opened Grants
  import opened MemoryStores
  import P = PostgresGrants
  import PostgresStores

  // Only a token that was found and whose principal the policy allows is renewed; it
  // is accepted exactly when the renewal succeeds.
  method Verify(store: MemoryStore, token: string, policy: Principal -> bool, lookedUp: Time, renewed: Time)
    returns (accepted: Option<Entry>)
    modifies store
    ensures var found := LookupToken(old(store.Contents()), token, lookedUp);
            if found.reply.Verified? && policy(found.reply.entry.principal)
            then
              var renewal := RenewToken(found.store, token, renewed);
              store.Contents() == renewal.store && accepted == Taken(renewal.reply)
            else store.Contents() == found.store && accepted == None
  {
    accepted := None;
    var reply := store.LookupToken(token, lookedUp);
    if !reply.Verified? { return; }
    if !policy(reply.entry.principal) { return; }
    reply := store.RenewToken(token, renewed);
    if !reply.Verified? { return; }
    accepted := Some(reply.entry);
  }

  // The same over the production store.
  method VerifyOnRows(store: PostgresStores.PostgresStore, token: string, policy: Principal -> bool, lookedUp: Time,
                      renewed: Time) returns (accepted: Option<Entry>)
    modifies store
    ensures var found := P.LookupToken(old(store.Rows()), token, lookedUp).reply;
            if found.Verified? && policy(found.entry.principal)
            then
              var renewal := P.RenewToken(old(store.Rows()), token, renewed);
              store.Rows() == renewal.db && accepted == Taken(renewal.reply)
            else store.Rows() == old(store.Rows()) && accepted == None
  {
    accepted := None;
    var reply := store.LookupToken(token, lookedUp);
    if !reply.Verified? { return; }
    if !policy(reply.entry.principal) { return; }
    reply := store.RenewToken(token, renewed);
    if !reply.Verified? { return; }
    accepted := Some(reply.entry);
  }

  function Taken(reply: Reply): Option<Entry> {
    if reply.Verified? then Some(reply.entry) else None
  }
}
