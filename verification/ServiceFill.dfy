/** The defaulting pass with the service addresses of an IPv4 CIDR. */
module ServiceFill {
  import opened Options
  import opened Decimal
  import opened Addresses
  import opened Subnets
  import opened ClusterDefaults

  ghost predicate CIDR(text: string, addr: nat, bits: string)
  {
    addr < 0x1_0000_0000 && Digits(bits) && Value(bits) <= 32
    && (text == Addr(addr) + "/" + bits
        || exists rest: string :: rest != "" && rest[0] == ',' && text == Addr(addr) + "/" + bits + rest)
  }

  lemma ServiceIPsOf(text: string, addr: nat, bits: string)
    requires CIDR(text, addr, bits)
    ensures var net := Network(addr, Value(bits));
            if Value(bits) <= 28 && net >= 0x100_0000
            then net + 10 < 0x1_0000_0000 && ServiceIPs(text) == Some((Addr(net + 1), Addr(net + 10)))
            else ServiceIPs(text) == None
  {
    if text == Addr(addr) + "/" + bits {
      assert Addr(addr) + "/" + bits + "" == text;
      ServiceIPsExactly(text, addr, bits, "");
    } else {
      var rest :| rest != "" && rest[0] == ',' && text == Addr(addr) + "/" + bits + rest;
      ServiceIPsExactly(text, addr, bits, rest);
    }
  }

  lemma FillNeedsServices(s: Spec, derive: Derive)
    ensures Fill(s, derive).Some? <==>
              !(s.externalRegistry.Some? && s.externalRegistry.value.domain == "")
                && Services(EnvMap(s.env), derive).Some?
  {
    KeptEnvironment(s.env);
    ServicesIgnoreGenerated(EnvMap(s.env), derive);
  }

  /** The pass fails exactly for an external registry without a domain and for a service CIDR from which no addresses
      can be derived; an absent or empty one is no error. */
  lemma FillExactly(s: Spec, derive: Derive)
    ensures var m := EnvMap(s.env);
            Fill(s, derive).Some? <==>
              && (s.externalRegistry.Some? ==> s.externalRegistry.value.domain != "")
              && ("SvcCIDR" in m && m["SvcCIDR"] != "" ==> derive(m["SvcCIDR"]).Some?)
  {
    FillNeedsServices(s, derive);
  }

  /** With a service CIDR in the user's environment the pass succeeds exactly when the external registry has a
      domain and the prefix has at most 28 bits over a network of 1.0.0.0 or above; the API server and DNS
      addresses it publishes are then network + 1 and network + 10. */
  lemma ServiceFillExactly(s: Spec, addr: nat, bits: string)
    requires "SvcCIDR" in EnvMap(s.env) && EnvMap(s.env)["SvcCIDR"] != "" && CIDR(EnvMap(s.env)["SvcCIDR"], addr, bits)
    ensures Fill(s, ServiceIPs).Some? <==>
              !(s.externalRegistry.Some? && s.externalRegistry.value.domain == "")
              && Value(bits) <= 28 && Network(addr, Value(bits)) >= 0x100_0000
    ensures Fill(s, ServiceIPs).Some? ==>
              var m, net := EnvMap(Fill(s, ServiceIPs).value.env), Network(addr, Value(bits));
              net + 10 < 0x1_0000_0000 && Says(m, "KubeSvcIP", Addr(net + 1)) && Says(m, "DNSSvcIP", Addr(net + 10))
  {
    ServiceIPsOf(EnvMap(s.env)["SvcCIDR"], addr, bits);
    FillNeedsServices(s, ServiceIPs);
    if Fill(s, ServiceIPs).Some? {
      VariablesArePublished(s, Fill(s, ServiceIPs).value, ServiceIPs);
    }
  }
}
