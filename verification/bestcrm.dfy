/** The BestCRM data model: the static registry of dimensions, each holding
    attributes and date dimensions with their `[Table.Column]` expressions,
    that stored widget references are resolved against. */
module BestCRM {
  import opened Js
  import opened Vendor
  import opened Expression

  /** A dimension created by `createDimension`: its `name` and, in
      declaration order, the attribute-valued properties it holds. */
  datatype Dimension = Dimension(name: string, fields: seq<Attribute>)

  /** `DataSource`. */
  const Source := DataSource("BestCRM", "elasticube")

  const AccountExecutive := Attribute("Account Executive", TextAttribute, Some(Bracketed("Account Executives", "Account Executive")))
  const AccountExecutiveAvatar := Attribute("Avatar", TextAttribute, Some(Bracketed("Account Executives", "Avatar")))
  const AccountExecutives := Dimension("Account Executives", [AccountExecutive, AccountExecutiveAvatar])

  const AccountName := Attribute("Account Name", TextAttribute, Some(Bracketed("Accounts", "Account Name")))
  const Accounts := Dimension("Accounts", [AccountName])

  const Country := Attribute("Country", TextAttribute, Some(Bracketed("Countries", "Country")))
  const Region := Attribute("Region", TextAttribute, Some(Bracketed("Countries", "Region")))
  const Countries := Dimension("Countries", [Country, Region])

  const Industry := Attribute("Industry", TextAttribute, Some(Bracketed("Industries", "Industry")))
  const Industries := Dimension("Industries", [Industry])

  const ManagerAvatar := Attribute("Avatar", TextAttribute, Some(Bracketed("Managers", "Avatar")))
  const SalesManager := Attribute("Sales Manager", TextAttribute, Some(Bracketed("Managers", "Sales Manager")))
  const Managers := Dimension("Managers", [ManagerAvatar, SalesManager])

  const IsMTD := Attribute("isMTD", NumericAttribute, Some(Bracketed("Opportunities", "isMTD")))
  const IsQTD := Attribute("isQTD", NumericAttribute, Some(Bracketed("Opportunities", "isQTD")))
  const IsYTD := Attribute("isYTD", NumericAttribute, Some(Bracketed("Opportunities", "isYTD")))
  const OpportunityId := Attribute("Opportunity Id", TextAttribute, Some(Bracketed("Opportunities", "Opportunity Id")))
  const OpportunityName := Attribute("Opportunity Name", TextAttribute, Some(Bracketed("Opportunities", "Opportunity Name")))
  const Value := Attribute("Value", NumericAttribute, Some(Bracketed("Opportunities", "Value")))
  const CloseDate := Attribute("Close Date", DateDimension, Some(Bracketed("Opportunities", "Close Date (Calendar)")))
  const CreationDate := Attribute("Creation Date", DateDimension, Some(Bracketed("Opportunities", "Creation Date (Calendar)")))
  const Opportunities := Dimension("Opportunities",
    [IsMTD, IsQTD, IsYTD, OpportunityId, OpportunityName, Value, CloseDate, CreationDate])

  const OutreachMessage := Attribute("Outreach Message", TextAttribute, Some(Bracketed("Outreaches", "Outreach Message")))
  const Outreaches := Dimension("Outreaches", [OutreachMessage])

  const StatusAttribute := Attribute("Status", TextAttribute, Some(Bracketed("Status", "Status")))
  const Status := Dimension("Status", [StatusAttribute])

  /** `allDimensions`: the registry, in the order the rehydrator searches it. */
  const AllDimensions := [AccountExecutives, Accounts, Countries, Industries, Managers, Opportunities, Outreaches, Status]

  // ---------------------------------------------------------------------
  // Properties of the registry

  predicate DistinctDimensionNames(reg: seq<Dimension>) {
    forall i, j :: 0 <= i < j < |reg| ==> reg[i].name != reg[j].name
  }

  predicate DistinctFieldNames(dim: Dimension) {
    forall i, j :: 0 <= i < j < |dim.fields| ==> dim.fields[i].name != dim.fields[j].name
  }

  /** The column an expression is meant to name: the attribute's own name,
      or, for a date dimension, its name followed by " (Calendar)". */
  function ExpressionColumn(a: Attribute): string {
    if a.kind.DateDimension? then a.name + " (Calendar)" else a.name
  }

  /** An attribute of the dimension named `table` is well declared when
      its expression is `[<table>.<column>]` and neither its name nor its
      column holds a `.` or a line terminator. */
  predicate FieldWellDeclared(table: string, a: Attribute) {
    && a.expression == Some(Bracketed(table, ExpressionColumn(a)))
    && PlainName(a.name)
    && PlainName(ExpressionColumn(a))
  }

  /** Lookup by table name is unambiguous. */
  lemma DimensionNamesAreDistinct()
    ensures DistinctDimensionNames(AllDimensions)
  {
  }

  /** The facts about one dimension the codec relies on: a plain name,
      well-declared fields, distinct field names. */
  predicate WellDeclared(dim: Dimension) {
    && PlainName(dim.name)
    && (forall k :: 0 <= k < |dim.fields| ==> FieldWellDeclared(dim.name, dim.fields[k]))
    && DistinctFieldNames(dim)
  }

  // One lemma per declared field, then one per dimension.

  lemma AccountExecutiveDeclared() ensures FieldWellDeclared("Account Executives", AccountExecutive) {
    assert ExpressionColumn(AccountExecutive) == "Account Executive";
    assert PlainName("Account Executive");
    assert PlainName(AccountExecutive.name);
  }

  lemma AccountExecutiveAvatarDeclared() ensures FieldWellDeclared("Account Executives", AccountExecutiveAvatar) {
    assert ExpressionColumn(AccountExecutiveAvatar) == "Avatar";
    assert PlainName("Avatar");
    assert PlainName(AccountExecutiveAvatar.name);
  }

  lemma AccountNameDeclared() ensures FieldWellDeclared("Accounts", AccountName) {
    assert ExpressionColumn(AccountName) == "Account Name";
    assert PlainName("Account Name");
    assert PlainName(AccountName.name);
  }

  lemma CountryDeclared() ensures FieldWellDeclared("Countries", Country) {
    assert ExpressionColumn(Country) == "Country";
    assert PlainName("Country");
    assert PlainName(Country.name);
  }

  lemma RegionDeclared() ensures FieldWellDeclared("Countries", Region) {
    assert ExpressionColumn(Region) == "Region";
    assert PlainName("Region");
    assert PlainName(Region.name);
  }

  lemma IndustryDeclared() ensures FieldWellDeclared("Industries", Industry) {
    assert ExpressionColumn(Industry) == "Industry";
    assert PlainName("Industry");
    assert PlainName(Industry.name);
  }

  lemma ManagerAvatarDeclared() ensures FieldWellDeclared("Managers", ManagerAvatar) {
    assert ExpressionColumn(ManagerAvatar) == "Avatar";
    assert PlainName("Avatar");
    assert PlainName(ManagerAvatar.name);
  }

  lemma SalesManagerDeclared() ensures FieldWellDeclared("Managers", SalesManager) {
    assert ExpressionColumn(SalesManager) == "Sales Manager";
    assert PlainName("Sales Manager");
    assert PlainName(SalesManager.name);
  }

  lemma IsMTDDeclared() ensures FieldWellDeclared("Opportunities", IsMTD) {
    assert ExpressionColumn(IsMTD) == "isMTD";
    assert PlainName("isMTD");
    assert PlainName(IsMTD.name);
  }

  lemma IsQTDDeclared() ensures FieldWellDeclared("Opportunities", IsQTD) {
    assert ExpressionColumn(IsQTD) == "isQTD";
    assert PlainName("isQTD");
    assert PlainName(IsQTD.name);
  }

  lemma IsYTDDeclared() ensures FieldWellDeclared("Opportunities", IsYTD) {
    assert ExpressionColumn(IsYTD) == "isYTD";
    assert PlainName("isYTD");
    assert PlainName(IsYTD.name);
  }

  lemma OpportunityIdDeclared() ensures FieldWellDeclared("Opportunities", OpportunityId) {
    assert ExpressionColumn(OpportunityId) == "Opportunity Id";
    assert PlainName("Opportunity Id");
    assert PlainName(OpportunityId.name);
  }

  lemma OpportunityNameDeclared() ensures FieldWellDeclared("Opportunities", OpportunityName) {
    assert ExpressionColumn(OpportunityName) == "Opportunity Name";
    assert PlainName("Opportunity Name");
    assert PlainName(OpportunityName.name);
  }

  lemma ValueDeclared() ensures FieldWellDeclared("Opportunities", Value) {
    assert ExpressionColumn(Value) == "Value";
    assert PlainName("Value");
    assert PlainName(Value.name);
  }

  lemma CalendarColumns()
    ensures ExpressionColumn(CloseDate) == "Close Date (Calendar)"
    ensures ExpressionColumn(CreationDate) == "Creation Date (Calendar)"
  {
    assert "Close Date" + " (Calendar)" == "Close Date (Calendar)";
    assert "Creation Date" + " (Calendar)" == "Creation Date (Calendar)";
  }

  lemma CalendarColumnsPlain()
    ensures PlainName("Close Date (Calendar)") && PlainName("Creation Date (Calendar)")
  {
  }

  lemma CloseDateDeclared() ensures FieldWellDeclared("Opportunities", CloseDate) {
    CalendarColumns();
    CalendarColumnsPlain();
    assert PlainName(CloseDate.name);
  }

  lemma CreationDateDeclared() ensures FieldWellDeclared("Opportunities", CreationDate) {
    CalendarColumns();
    CalendarColumnsPlain();
    assert PlainName(CreationDate.name);
  }

  lemma OutreachMessageDeclared() ensures FieldWellDeclared("Outreaches", OutreachMessage) {
    assert ExpressionColumn(OutreachMessage) == "Outreach Message";
    assert PlainName("Outreach Message");
    assert PlainName(OutreachMessage.name);
  }

  lemma StatusAttributeDeclared() ensures FieldWellDeclared("Status", StatusAttribute) {
    assert ExpressionColumn(StatusAttribute) == "Status";
    assert PlainName("Status");
    assert PlainName(StatusAttribute.name);
  }

  lemma AccountExecutivesWellDeclared() ensures WellDeclared(AccountExecutives) {
    assert AccountExecutives.fields == [AccountExecutive, AccountExecutiveAvatar];
    assert PlainName("Account Executives");
    AccountExecutiveDeclared(); AccountExecutiveAvatarDeclared();
  }

  lemma AccountsWellDeclared() ensures WellDeclared(Accounts) {
    assert Accounts.fields == [AccountName];
    assert PlainName("Accounts");
    AccountNameDeclared();
  }

  lemma CountriesWellDeclared() ensures WellDeclared(Countries) {
    assert Countries.fields == [Country, Region];
    assert PlainName("Countries");
    CountryDeclared(); RegionDeclared();
  }

  lemma IndustriesWellDeclared() ensures WellDeclared(Industries) {
    assert Industries.fields == [Industry];
    assert PlainName("Industries");
    IndustryDeclared();
  }

  lemma ManagersWellDeclared() ensures WellDeclared(Managers) {
    assert Managers.fields == [ManagerAvatar, SalesManager];
    assert PlainName("Managers");
    ManagerAvatarDeclared(); SalesManagerDeclared();
  }

  lemma OpportunityFieldNamesDistinct() ensures DistinctFieldNames(Opportunities) {
    assert Opportunities.fields == [IsMTD, IsQTD, IsYTD, OpportunityId, OpportunityName, Value, CloseDate, CreationDate];
  }

  lemma OpportunitiesWellDeclared() ensures WellDeclared(Opportunities) {
    OpportunityFieldNamesDistinct();
    assert Opportunities.fields == [IsMTD, IsQTD, IsYTD, OpportunityId, OpportunityName, Value, CloseDate, CreationDate];
    assert PlainName("Opportunities");
    IsMTDDeclared(); IsQTDDeclared(); IsYTDDeclared(); OpportunityIdDeclared(); OpportunityNameDeclared(); ValueDeclared(); CloseDateDeclared(); CreationDateDeclared();
  }

  lemma OutreachesWellDeclared() ensures WellDeclared(Outreaches) {
    assert Outreaches.fields == [OutreachMessage];
    assert PlainName("Outreaches");
    OutreachMessageDeclared();
  }

  lemma StatusWellDeclared() ensures WellDeclared(Status) {
    assert Status.fields == [StatusAttribute];
    assert PlainName("Status");
    StatusAttributeDeclared();
  }

  /** Every expression has the form `[<dimension name>.<column>]`, no
      string in any of them holds a `.`, and the attribute names within a
      dimension are distinct. */
  lemma AllWellDeclared()
    ensures forall i :: 0 <= i < |AllDimensions| ==> WellDeclared(AllDimensions[i])
  {
    AccountExecutivesWellDeclared();
    AccountsWellDeclared();
    CountriesWellDeclared();
    IndustriesWellDeclared();
    ManagersWellDeclared();
    OpportunitiesWellDeclared();
    OutreachesWellDeclared();
    StatusWellDeclared();
  }

  /** Each expression parses to its dimension's name and its column. */
  lemma ExpressionsParse(i: nat, k: nat)
    requires i < |AllDimensions| && k < |AllDimensions[i].fields|
    ensures ParseExpression(AllDimensions[i].fields[k].expression)
         == Some(JaqlRef(AllDimensions[i].name, ExpressionColumn(AllDimensions[i].fields[k])))
  {
    AllWellDeclared();
    var dim := AllDimensions[i];
    ParseBracketed(dim.name, ExpressionColumn(dim.fields[k]));
  }

  /** The two date dimensions name, in their expressions, a column that
      differs from their own name. */
  lemma DateDimensionColumns()
    ensures CloseDate in Opportunities.fields && CreationDate in Opportunities.fields
    ensures ParseExpression(CloseDate.expression) == Some(JaqlRef("Opportunities", "Close Date (Calendar)"))
    ensures ParseExpression(CreationDate.expression) == Some(JaqlRef("Opportunities", "Creation Date (Calendar)"))
    ensures CloseDate.name != "Close Date (Calendar)" && CreationDate.name != "Creation Date (Calendar)"
  {
    assert AllDimensions[5] == Opportunities;
    assert Opportunities.fields[6] == CloseDate && Opportunities.fields[7] == CreationDate;
    ExpressionsParse(5, 6);
    ExpressionsParse(5, 7);
    CalendarColumns();
  }

  /** `Avatar` names an attribute of two dimensions, with two expressions. */
  lemma AvatarInTwoDimensions()
    ensures AccountExecutiveAvatar in AccountExecutives.fields && ManagerAvatar in Managers.fields
    ensures AccountExecutiveAvatar.name == ManagerAvatar.name == "Avatar"
    ensures AccountExecutiveAvatar.expression != ManagerAvatar.expression
  {
    assert AccountExecutiveAvatar.expression.value[1] == 'A' != 'M' == ManagerAvatar.expression.value[1];
  }
}
