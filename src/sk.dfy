/** The user name handling of the administration tool (bin/sk.py). */
module AdminTool {
  import opened Wrappers
  import opened Strs

  /** The configuration fields `setUsername` reads and writes. */
  class Config {
    var user: string
    var username: string
    var hostname: string

    /** `defaultConfiguration()`: user "startkladde" on "localhost", joined as `user@host`. */
    constructor()
      ensures username == "startkladde" && hostname == "localhost"
      ensures user == Join([username, hostname], "@")
    {
      username := "startkladde";
      hostname := "localhost";
      user := Join(["startkladde", "localhost"], "@");
    }

    /** `setUsername()`. */
    method SetUsername() returns (r: Result<()>)
      modifies this
      ensures user == old(user)
      ensures ParseUser(old(user), old(hostname)).Some? ==>
                r.Ok? && (username, hostname) == ParseUser(old(user), old(hostname)).value
      ensures ParseUser(old(user), old(hostname)).None? ==>
                r == Err(IOError("Illegal user name '" + old(username) + "'. Format is <user>[@<host>]")) &&
                username == old(username) && hostname == old(hostname)
    {
      var fields := Split(user, '@');
      if |fields| == 1 {
        username := fields[0];
        return Ok(());
      }
      if |fields| == 2 {
        username := Strip(fields[0]);
        hostname := Strip(fields[1]);
        return Ok(());
      }
      return Err(IOError("Illegal user name '" + username + "'. Format is <user>[@<host>]"));
    }
  }

  /** The user and host names `setUsername` sets for `user`, given the previous host name;
      `None` when it raises IOError. */
  function ParseUser(user: string, host: string): (r: Option<(string, string)>)
    ensures r.Some? <==> Count(user, '@') <= 1
  {
    SplitCount(user, '@');
    var fields := Split(user, '@');
    if |fields| == 1 then Some((fields[0], host))
    else if |fields| == 2 then Some((Strip(fields[0]), Strip(fields[1])))
    else None
  }

  /** A user string without "@" is taken as it is and keeps the host name. */
  lemma NoHostKeepsHost(user: string, host: string)
    requires Count(user, '@') == 0
    ensures ParseUser(user, host) == Some((user, host))
  {
    SplitNoSep(user, '@');
  }

  /** Joining a user and a host name with "@" parses back to the stripped names. */
  lemma JoinThenParse(u: string, h: string, host: string)
    requires Count(u, '@') == 0 && Count(h, '@') == 0
    ensures ParseUser(u + "@" + h, host) == Some((Strip(u), Strip(h)))
  {
    assert u + "@" + h == u + ['@'] + h;
    SplitAround(u, h, '@');
  }

  /** Two or more "@" raise IOError. */
  lemma SeveralAtsRejected(user: string, host: string)
    requires Count(user, '@') >= 2
    ensures ParseUser(user, host).None?
  {
  }

  /** Two plain names joined with "@" parse back to themselves. */
  lemma JoinPlainParses(u: string, h: string, host: string)
    requires Count(u, '@') == 0 && Count(h, '@') == 0 && Strip(u) == u && Strip(h) == h
    ensures ParseUser(Join([u, h], "@"), host) == Some((u, h))
  {
    assert Join([u, h], "@") == u + "@" + h;
    JoinThenParse(u, h, host);
  }

  /** The default configuration's user string parses to its user and host names. */
  lemma DefaultUserParses(u: string, h: string, host: string)
    requires Spells(u, "startkladde") && Spells(h, "localhost")
    ensures ParseUser(Join([u, h], "@"), host) == Some((u, h))
  {
    CountAbsent(u, '@');
    CountAbsent(h, '@');
    StripPlain(u);
    StripPlain(h);
    JoinPlainParses(u, h, host);
  }
}
