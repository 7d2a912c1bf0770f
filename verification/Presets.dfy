/** The tables and columns the Odoo presets name. */
module Presets {

  datatype MaskKind =
    | Name | FirstName | LastName | Email | Phone | Address | City | Zip | Vat | Iban | Url | Text | Null | Fixed | Hash

  /** `value` is used by Fixed only. */
  datatype MaskRule = MaskRule(table: string, column: string, kind: MaskKind, value: string)

  function Rule(table: string, column: string, kind: MaskKind): MaskRule { MaskRule(table, column, kind, "") }

  const TRUNCATE_PRESET: seq<string> := [
    "mail_message", "mail_notification", "mail_tracking_value", "mail_mail", "mail_followers", "bus_bus",
    "bus_presence", "ir_logging", "auditlog_log", "auditlog_http_session", "auditlog_http_request",
    "queue_job", "queue_job_function", "base_import_import", "base_import_mapping"
  ]

  const TRUNCATE_NEVER: set<string> := {
    "ir_module_module", "ir_model", "ir_model_fields", "ir_model_data", "ir_ui_view", "ir_config_parameter",
    "res_users", "res_groups", "res_company", "ir_attachment", "account_move", "account_move_line",
    "stock_move", "sale_order", "purchase_order"
  }

  const MASK_PRESET: seq<MaskRule> := [
    Rule("res_partner", "name", Name), Rule("res_partner", "email", Email),
    Rule("res_partner", "email_normalized", Email), Rule("res_partner", "phone", Phone),
    Rule("res_partner", "mobile", Phone), Rule("res_partner", "street", Address),
    Rule("res_partner", "street2", Address), Rule("res_partner", "city", City),
    Rule("res_partner", "zip", Zip), Rule("res_partner", "vat", Vat), Rule("res_partner", "website", Url),
    Rule("res_partner", "comment", Null), Rule("res_partner", "ref", Hash),
    Rule("mail_message", "body", Text), Rule("mail_message", "email_from", Email),
    Rule("mail_message", "author_avatar", Null), Rule("mail_message", "subject", Text),
    Rule("mail_tracking_value", "old_value_char", Hash), Rule("mail_tracking_value", "new_value_char", Hash),
    Rule("mail_mail", "email_to", Email), Rule("mail_mail", "email_cc", Email),
    Rule("mail_mail", "body_html", Text), Rule("res_partner_bank", "acc_number", Iban),
    Rule("res_partner_bank", "acc_holder_name", Name), Rule("hr_employee", "private_email", Email),
    Rule("hr_employee", "private_phone", Phone), Rule("hr_employee", "private_street", Address),
    Rule("hr_employee", "identification_id", Hash), Rule("hr_employee", "ssnid", Hash),
    Rule("hr_employee", "passport_id", Hash), Rule("hr_employee", "bank_account_id", Null),
    Rule("hr_employee", "birthday", Null), Rule("hr_employee", "km_home_work", Null),
    Rule("crm_lead", "contact_name", Name), Rule("crm_lead", "partner_name", Name),
    Rule("crm_lead", "email_from", Email), Rule("crm_lead", "phone", Phone),
    Rule("crm_lead", "mobile", Phone), Rule("crm_lead", "street", Address), Rule("crm_lead", "city", City),
    Rule("crm_lead", "zip", Zip)
  ]

  const MASK_USER_LOGINS: seq<MaskRule> := [
    Rule("res_users", "login", Email)
  ]
}
