/** The create-instance dialog: its form, the record it hands to the
    instance list, and the form reset. */
module CreateInstance {
  import opened Common
  import opened Text
  import opened Compute

  datatype InstanceForm = InstanceForm(name: string, region: string, image: string, cpu: int, ram: int)

  /** `resetForm`: the dialog's defaults. */
  function ResetForm(): (f: InstanceForm)
    ensures f.name == "" && f.region == "us-east-1" && f.image == "ubuntu" && f.cpu == 1 && f.ram == 1
    ensures forall suffix :: Submit(f, suffix).None?
  {
    InstanceForm("", "us-east-1", "ubuntu", 1, 1)
  }

  /** The labels the new instance carries for its vCPU count and its RAM size. */
  function CpuLabel(cpu: int): string {
    IntToString(cpu) + " vCPU"
  }

  function RamLabel(ram: int): string {
    IntToString(ram) + " GB"
  }

  /** Submitting the dialog: an empty name creates nothing; otherwise the
      record passed to `onCreate` is a pending custom instance with no IP and
      no uptime yet. `idSuffix` is the random part of the id. */
  function Submit(f: InstanceForm, idSuffix: string): (r: Option<ComputeInstance>)
    ensures r.None? <==> f.name == ""
    ensures r.Some? ==>
      && r.value.name == f.name
      && r.value.region == f.region
      && r.value.image == f.image
      && r.value.status == Pending
      && r.value.instanceType == "custom"
      && r.value.ip == "-"
      && r.value.uptime == "-"
      && r.value.cpu == CpuLabel(f.cpu)
      && r.value.ram == RamLabel(f.ram)
      && "i-" <= r.value.id
      && r.value.id[2..] == idSuffix
  {
    if f.name == "" then None
    else Some(ComputeInstance("i-" + idSuffix, f.name, Pending, f.region, "custom", "-",
                              CpuLabel(f.cpu), RamLabel(f.ram), "-", f.image))
  }

  /** The vCPU shown carries the form's count: dropping the unit and reading
      the digits back gives the number typed. */
  lemma CpuLabelRoundTrip(cpu: nat)
    ensures var shown := CpuLabel(cpu);
      && |shown| > 5
      && shown[|shown| - 5..] == " vCPU"
      && (forall i :: 0 <= i < |shown| - 5 ==> IsDigit(shown[i]))
      && ParseNat(shown[..|shown| - 5]) == cpu
  {
    var shown := CpuLabel(cpu);
    assert shown[..|shown| - 5] == NatToString(cpu);
    ParseNatToString(cpu);
  }

  /** Likewise the RAM shown carries the form's size in GB. */
  lemma RamLabelRoundTrip(ram: nat)
    ensures var shown := RamLabel(ram);
      && |shown| > 3
      && shown[|shown| - 3..] == " GB"
      && (forall i :: 0 <= i < |shown| - 3 ==> IsDigit(shown[i]))
      && ParseNat(shown[..|shown| - 3]) == ram
  {
    var shown := RamLabel(ram);
    assert shown[..|shown| - 3] == NatToString(ram);
    ParseNatToString(ram);
  }
}
