/** Application-wide constants: role names, the low-stock threshold, storage keys and error messages. */
module AppConstants {
  import opened Numerals

  const RoleAdmin := "ROLE_ADMIN"
  const RoleEmployee := "ROLE_EMPLOYEE"

  /** Products with fewer units than this are low on stock. */
  const LowStockThreshold := 5

  const AuthTokenKey := "auth_token"
  const UserDataKey := "user_data"
  const ThemeKey := "app_theme"

  const NameMinLength := 2
  const NameMaxLength := 100
  const DescriptionMaxLength := 500
  const PriceMin := 0.01
  const QuantityMin := 0.0

  const RequiredMessage := "Este campo es obligatorio"
  const InvalidEmailMessage := "Email inválido"
  const GenericMessage := "Ha ocurrido un error"
  const NetworkMessage := "Error de conexión"
  const UnauthorizedMessage := "No tienes permisos para realizar esta acción"

  function MinLengthMessage(min: int): string { "Mínimo " + IntText(min) + " caracteres" }
  function MaxLengthMessage(max: int): string { "Máximo " + IntText(max) + " caracteres" }
  function MinValueMessage(min: real): string { "El valor mínimo es " + NumberText(min) }
  function MaxValueMessage(max: real): string { "El valor máximo es " + NumberText(max) }
}
