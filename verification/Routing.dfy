/** Where mail for a recipient outside the node goes. */
module Routing {
  import opened Wrappers
  import opened TextSearch

  /** From the key before `@yggmail` to the address of its node, if it is a key. */
  type Resolver = string -> Option<string>

  const YGGMAIL := "yggmail"

  /** The host after the first `@`, or the address of the key before `@yggmail`. */
  function HostOf(resolve: Resolver, rcpt: string): Option<string> {
    var parts := SplitN(rcpt, '@', 2);
    if |parts| != 2 then None
    else if parts[1] == YGGMAIL then resolve(parts[0])
    else Some(parts[1])
  }

  /** Any other host is the destination itself. */
  lemma HostIsDestination(resolve: Resolver, name: string, host: string)
    requires '@' !in name && host != YGGMAIL
    ensures HostOf(resolve, name + "@" + host) == Some(host)
  {
    SplitFirst(name, '@', host, 2);
  }

  /** The name before `@yggmail` is looked up. */
  lemma KeyIsLookedUp(resolve: Resolver, name: string)
    requires '@' !in name
    ensures HostOf(resolve, name + "@" + "yggmail") == resolve(name)
  {
    SplitFirst(name, '@', YGGMAIL, 2);
  }

  /** A recipient has no host exactly when it has no at sign, or is a name at yggmail that is not a key. */
  lemma NoHost(resolve: Resolver, rcpt: string)
    ensures |SplitN(rcpt, '@', 2)| == 2 <==> '@' in rcpt
    ensures HostOf(resolve, rcpt).None? <==>
            '@' !in rcpt || exists name :: '@' !in name && rcpt == name + "@" + "yggmail" && resolve(name).None?
  {
    SplitCut(rcpt, '@', 2);
    hide SplitN, HostOf;
    if '@' in rcpt {
      var name, host := rcpt[..IndexOf(rcpt, '@')], rcpt[IndexOf(rcpt, '@') + 1..];
      assert rcpt == name + "@" + host;
      if host == "yggmail" {
        KeyIsLookedUp(resolve, name);
        forall other | '@' !in other && rcpt == other + "@" + "yggmail" ensures other == name {
          OneName(name, other, "yggmail", "yggmail");
        }
      } else {
        HostIsDestination(resolve, name, host);
        forall other | '@' !in other ensures rcpt != other + "@" + "yggmail" {
          if rcpt == other + "@" + "yggmail" { OneName(name, other, host, "yggmail"); }
        }
      }
    } else {
      NoAt(resolve, rcpt);
    }
  }

  lemma NoAt(resolve: Resolver, rcpt: string)
    requires '@' !in rcpt
    ensures HostOf(resolve, rcpt).None?
  {}

  lemma OneName(a: string, b: string, x: string, y: string)
    requires '@' !in a && '@' !in b && a + "@" + x == b + "@" + y
    ensures a == b && x == y
  {
    IndexAfter(a, '@', x);
    IndexAfter(b, '@', y);
    assert (a + "@" + x)[..|a|] == a && (b + "@" + y)[..|b|] == b;
    assert (a + "@" + x)[|a| + 1..] == x && (b + "@" + y)[|b| + 1..] == y;
  }
}
